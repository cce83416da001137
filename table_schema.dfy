/** The table schema builder of the live comparison: the same tagged query
    battery as the DDL synthesiser, folded into a nested dictionary that
    describes one table. */
module TableSchema {
  import opened Base
  import opened PyObj
  import opened Metastore

  /** The ids threaded to later queries and the table dictionary built so
      far. */
  datatype SchemaState = SchemaState(ids: Ids, dict: Entries)

  const InitialSchema := SchemaState(InitialIds, [])

  /** Whether the fold goes on, or stops because the table is missing. */
  datatype SchemaOutcome = Building(st: SchemaState) | Missing

  // ---------------------------------------------------------------------
  // Single-row queries

  /** Q1: no row means the table is missing; otherwise the stripped type
      and the table id of the first row. */
  function SchemaIdentityStep(st: SchemaState, recs: seq<Entries>): (r: Result<SchemaOutcome>)
    ensures r == Ok(Missing) <==> |recs| == 0
    ensures r.Err? <==> |recs| > 0 && !Field(recs[0], "TBL_TYPE").Str?
    ensures r.Ok? && r.value.Building? ==>
      var row := recs[0];
      var next := r.value.st;
      next.ids == st.ids.(tableId := Field(row, "TBL_ID"))
      && Lookup(next.dict, "type") == Some(Str(Strip(Field(row, "TBL_TYPE").s)))
      && (forall key :: key != "type" ==> Lookup(next.dict, key) == Lookup(st.dict, key))
  {
    if |recs| == 0 then Ok(Missing)
    else
      var row := recs[0];
      var stripped :- StrippedType(Field(row, "TBL_TYPE"));
      Ok(Building(st.(ids := st.ids.(tableId := Field(row, "TBL_ID")), dict := Set(st.dict, "type", Str(stripped)))))
  }

  /** `d[key] = value` when the condition holds, `d` otherwise. */
  function SetIf(d: Entries, cond: bool, key: string, value: Obj): (r: Entries)
    ensures Lookup(r, key) == (if cond then Some(value) else Lookup(d, key))
  {
    if cond then Set(d, key, value) else d
  }

  lemma SetIfOther(d: Entries, cond: bool, key: string, value: Obj, other: string)
    requires other != key
    ensures Lookup(SetIf(d, cond, key, value), other) == Lookup(d, other)
  {
  }

  /** The four storage entries of Q2, each written only when its
      condition holds; every other key is left alone. */
  function StorageEntries(d: Entries, numBuckets: Obj, bucketed: bool, location: Obj, recorded: bool,
                          inputFormat: Obj, outputFormat: Obj): (r: Entries)
    ensures Lookup(r, "bucket") == (if bucketed then Some(BucketInfo(numBuckets)) else Lookup(d, "bucket"))
    ensures Lookup(r, "location") == (if recorded then Some(location) else Lookup(d, "location"))
    ensures Lookup(r, "input_format") == (if inputFormat != Null then Some(inputFormat) else Lookup(d, "input_format"))
    ensures Lookup(r, "output_format") == (if outputFormat != Null then Some(outputFormat) else Lookup(d, "output_format"))
  {
    var d1 := SetIf(d, bucketed, "bucket", BucketInfo(numBuckets));
    var d2 := SetIf(d1, recorded, "location", location);
    var d3 := SetIf(d2, inputFormat != Null, "input_format", inputFormat);
    var d4 := SetIf(d3, outputFormat != Null, "output_format", outputFormat);
    SetIfOther(d1, recorded, "location", location, "bucket");
    SetIfOther(d2, inputFormat != Null, "input_format", inputFormat, "bucket");
    SetIfOther(d3, outputFormat != Null, "output_format", outputFormat, "bucket");
    SetIfOther(d2, inputFormat != Null, "input_format", inputFormat, "location");
    SetIfOther(d3, outputFormat != Null, "output_format", outputFormat, "location");
    SetIfOther(d3, outputFormat != Null, "output_format", outputFormat, "input_format");
    d4
  }

  /** Q2: bucket, location and the two formats from the first row. */
  function SchemaStorageStep(st: SchemaState, recs: seq<Entries>): (r: Result<SchemaState>)
  {
    if |recs| == 0 then Ok(st)
    else
      var row := recs[0];
      var location := Field(row, "LOCATION");
      var dbLocationUri := Field(row, "DB_LOCATION_URI");
      var numBuckets := Field(row, "NUM_BUCKETS");
      var bucketed :- Positive(numBuckets);
      var managed :- DeriveManagedUri(dbLocationUri, Field(row, "DB_MANAGED_LOCATION_URI"));
      var recorded :- NeedsLocation(dbLocationUri, location);
      var inputFormat := Field(row, "INPUT_FORMAT");
      var outputFormat := Field(row, "OUTPUT_FORMAT");
      var d := StorageEntries(st.dict, numBuckets, bucketed, location, recorded, inputFormat, outputFormat);
      Ok(SchemaState(st.ids.(sdId := Field(row, "SD_ID"), cdId := Field(row, "CD_ID"),
                             dbLocationUri := dbLocationUri, dbManagedUri := managed), d))
  }

  /** Q10: the serde library and its serializer and deserializer classes. */
  function SchemaSerdeStep(st: SchemaState, recs: seq<Entries>): (r: SchemaState)
  {
    if |recs| == 0 then st
    else
      var row := recs[0];
      st.(dict := Set(Set(Set(st.dict, "serde", Field(row, "SLIB")),
                          "serializer", Field(row, "SERIALIZER_CLASS")),
                      "deserializer", Field(row, "DESERIALIZER_CLASS")))
  }

  /** Q17: the bucketing columns, when the first row has a value. */
  function SchemaClusterStep(st: SchemaState, recs: seq<Entries>): (r: SchemaState)
  {
    if |recs| > 0 && Field(recs[0], "PARAM_VALUE") != Null
    then st.(dict := Set(st.dict, "clustered_by", Field(recs[0], "PARAM_VALUE")))
    else st
  }

  // ---------------------------------------------------------------------
  // Q3: table parameters

  /** The table dictionary and the `properties` entry the loop fills. */
  datatype SchemaParams = SchemaParams(dict: Entries, props: Entries)

  function SchemaParamStep(p: SchemaParams, entry: Entries): Result<SchemaParams>
  {
    var key :- Column(entry, "PARAM_KEY");
    match RouteOf(key)
    case Dropped => Ok(p)
    case StoredBy =>
      var value :- Column(entry, "PARAM_VALUE");
      Ok(p.(dict := Set(p.dict, "stored_by", value)))
    case TableComment =>
      var value :- Column(entry, "PARAM_VALUE");
      Ok(p.(dict := Set(p.dict, "comment", value)))
    case _ =>
      var value :- Column(entry, "PARAM_VALUE");
      var name :- AsKey(key);
      Ok(p.(props := Set(p.props, name, value)))
  }

  /** What one parameter does to `properties`. */
  lemma SchemaParamStepProps(p: SchemaParams, e: Entries)
    requires SchemaParamStep(p, e).Ok?
    ensures var key := Field(e, "PARAM_KEY");
      SchemaParamStep(p, e).value.props
      == if key.Str? && Recorded(key) then Set(p.props, key.s, Field(e, "PARAM_VALUE")) else p.props
  {
    var key := Field(e, "PARAM_KEY");
    assert Column(e, "PARAM_KEY") == Ok(key);
    if Recorded(key) {
      assert Column(e, "PARAM_VALUE") == Ok(Field(e, "PARAM_VALUE"));
    }
  }

  /** The loop builds `properties` from exactly the recorded parameters. */
  lemma {:induction false} SchemaParamsProps(p0: SchemaParams, recs: seq<Entries>)
    requires p0.props == []
    requires Fold(p0, recs, SchemaParamStep).Ok?
    ensures Fold(p0, recs, SchemaParamStep).value.props == FromPairs(RecordedPairs(recs))
  {
    if |recs| > 0 {
      var init := recs[..|recs| - 1];
      SchemaParamsProps(p0, init);
      SchemaParamStepProps(Fold(p0, init, SchemaParamStep).value, recs[|recs| - 1]);
      RecordedPropsSnoc(recs);
    }
  }

  /** Q3: `properties` reset to `{}` and refilled. */
  function SchemaPropertiesStep(st: SchemaState, recs: seq<Entries>): Result<SchemaState>
  {
    var p :- Fold(SchemaParams(Set(st.dict, "properties", Dict([])), []), recs, SchemaParamStep);
    Ok(st.(dict := Set(p.dict, "properties", Dict(p.props))))
  }

  /** After Q3 `properties` maps every recorded key to the value of its
      last row, and none of the skipped or dedicated keys. */
  lemma SchemaPropertiesRule(st: SchemaState, recs: seq<Entries>)
    requires SchemaPropertiesStep(st, recs).Ok?
    ensures var props := FromPairs(RecordedPairs(recs));
      Lookup(SchemaPropertiesStep(st, recs).value.dict, "properties") == Some(Dict(props))
      && (forall key :: Lookup(props, key) == LastValue(RecordedPairs(recs), key))
      && (forall key :: HasKey(props, key) ==> Recorded(Str(key)))
  {
    SchemaParamsProps(SchemaParams(Set(st.dict, "properties", Dict([])), []), recs);
    RecordedPairsRecorded(recs);
  }

  // ---------------------------------------------------------------------
  // Q9: columns

  /** The `columns` entry, `data_types` and `column_list` the loop fills. */
  datatype SchemaColumns = SchemaColumns(columns: Entries, types: seq<Obj>, names: seq<Obj>)

  /** `entry.get('COMMENT', '')`. */
  function CommentOf(entry: Entries): Obj
  {
    match Lookup(entry, "COMMENT") case Some(c) => c case None => Str("")
  }

  function SchemaColumnStep(c: SchemaColumns, entry: Entries): Result<SchemaColumns>
  {
    var name :- Column(entry, "COLUMN_NAME");
    var key :- AsKey(name);
    var ctype :- Column(entry, "TYPE_NAME");
    Ok(SchemaColumns(Set(c.columns, key, Dict([("type", ctype), ("comment", CommentOf(entry))])),
                     c.types + [ctype], c.names + [name]))
  }

  /** Q9: the three column entries, reset and refilled. */
  function SchemaColumnsStep(st: SchemaState, recs: seq<Entries>): Result<SchemaState>
  {
    var c :- Fold(SchemaColumns([], [], []), recs, SchemaColumnStep);
    Ok(st.(dict := Set(Set(Set(st.dict, "columns", Dict(c.columns)), "data_types", List(c.types)),
                       "column_list", List(c.names))))
  }

  /** One row appends its type and its name. */
  lemma SchemaColumnStepShape(c: SchemaColumns, e: Entries)
    requires SchemaColumnStep(c, e).Ok?
    ensures SchemaColumnStep(c, e).value.types == c.types + [Field(e, "TYPE_NAME")]
    ensures SchemaColumnStep(c, e).value.names == c.names + [Field(e, "COLUMN_NAME")]
  {
  }

  /** The types and names the loop collects have one element per row and
      are aligned with the rows, index by index. */
  lemma SchemaColumnsAligned(recs: seq<Entries>)
    requires Fold(SchemaColumns([], [], []), recs, SchemaColumnStep).Ok?
    ensures var c := Fold(SchemaColumns([], [], []), recs, SchemaColumnStep).value;
      |c.types| == |recs| && |c.names| == |recs|
      && forall k :: 0 <= k < |recs| ==>
           c.types[k] == Field(recs[k], "TYPE_NAME") && c.names[k] == Field(recs[k], "COLUMN_NAME")
  {
    forall c: SchemaColumns, e: Entries | SchemaColumnStep(c, e).Ok?
      ensures SchemaColumnStep(c, e).value.types == c.types + [Field(e, "TYPE_NAME")]
      ensures SchemaColumnStep(c, e).value.names == c.names + [Field(e, "COLUMN_NAME")]
    {
      SchemaColumnStepShape(c, e);
    }
    var c0 := SchemaColumns([], [], []);
    FoldCollects(c0, recs, SchemaColumnStep, (e: Entries) => Ok(Field(e, "TYPE_NAME")), (c: SchemaColumns) => c.types);
    FoldCollects(c0, recs, SchemaColumnStep, (e: Entries) => Ok(Field(e, "COLUMN_NAME")), (c: SchemaColumns) => c.names);
  }

  /** After Q9 `data_types` and `column_list` are lists as long as the
      rows, aligned with them index by index. */
  lemma SchemaColumnsRule(st: SchemaState, recs: seq<Entries>)
    requires SchemaColumnsStep(st, recs).Ok?
    ensures var d := SchemaColumnsStep(st, recs).value.dict;
      Lookup(d, "data_types").Some? && Lookup(d, "column_list").Some?
      && var types := Lookup(d, "data_types").value;
      var names := Lookup(d, "column_list").value;
      types.List? && names.List? && |types.items| == |recs| && |names.items| == |recs|
      && forall k :: 0 <= k < |recs| ==>
           types.items[k] == Field(recs[k], "TYPE_NAME") && names.items[k] == Field(recs[k], "COLUMN_NAME")
  {
    SchemaColumnsAligned(recs);
  }

  // ---------------------------------------------------------------------
  // Q6, Q11, Q12, Q16, Q18

  /** Q6: `sorted_by`, when there is at least one row. */
  function SchemaSortStep(st: SchemaState, recs: seq<Entries>): Result<SchemaState>
  {
    var arr :- MapRecords(recs, SortKeyText);
    Ok(if |arr| > 0 then st.(dict := Set(st.dict, "sorted_by", Str(Join(arr, ", ")))) else st)
  }

  function SerdePropertyStep(props: Entries, entry: Entries): Result<Entries>
  {
    var value :- Column(entry, "PARAM_VALUE");
    var key :- Column(entry, "PARAM_KEY");
    var name :- AsKey(key);
    Ok(Set(props, name, value))
  }

  /** Q11: `serde_properties`, reset and refilled. */
  function SchemaSerdePropertiesStep(st: SchemaState, recs: seq<Entries>): Result<SchemaState>
  {
    var props :- Fold([], recs, SerdePropertyStep);
    Ok(st.(dict := Set(st.dict, "serde_properties", Dict(props))))
  }

  /** Q12: `skewed_columns`, when there is at least one row. */
  function SchemaSkewStep(st: SchemaState, recs: seq<Entries>): Result<SchemaState>
  {
    var arr :- MapRecords(recs, SkewedColumnText);
    Ok(if |arr| > 0 then st.(dict := Set(st.dict, "skewed_columns", StrList(arr))) else st)
  }

  /** Q16: `partitioned_by`, when there is at least one row. */
  function SchemaPartitionKeysStep(st: SchemaState, recs: seq<Entries>): Result<SchemaState>
  {
    var arr :- MapRecords(recs, PartitionKeyText);
    Ok(if |arr| > 0 then st.(dict := Set(st.dict, "partitioned_by", StrList(arr))) else st)
  }

  /** One Q18 row: `custom_partitions` is replaced by a dictionary holding
      only this row's key, whose `value` ends up being the row's location. */
  function CustomPartitionStep(dict: Entries, entry: Entries): Result<Entries>
  {
    var partName :- Column(entry, "PART_NAME");
    var (key, _) :- SplitPartitionName(partName);
    var location :- Column(entry, "LOCATION");
    Ok(Set(dict, "custom_partitions", Dict([(key, Dict([("value", location)]))])))
  }

  /** Q18. */
  function SchemaPartitionsStep(st: SchemaState, recs: seq<Entries>): Result<SchemaState>
  {
    var dict :- Fold(st.dict, recs, CustomPartitionStep);
    Ok(st.(dict := dict))
  }

  /** After Q18 `custom_partitions` holds the last row's key only, mapped
      to the last row's location; without rows it is left as it was. */
  lemma LastPartitionOnly(st: SchemaState, recs: seq<Entries>)
    requires SchemaPartitionsStep(st, recs).Ok?
    ensures var d := SchemaPartitionsStep(st, recs).value.dict;
      (|recs| == 0 ==> d == st.dict)
      && (|recs| > 0 ==>
            var last := recs[|recs| - 1];
            SplitPartitionName(Field(last, "PART_NAME")).Ok?
            && Lookup(d, "custom_partitions")
               == Some(Dict([(SplitPartitionName(Field(last, "PART_NAME")).value.0,
                              Dict([("value", Field(last, "LOCATION"))]))])))
  {
  }

  /** A well-formed partition row replaces `custom_partitions` with its
      own key and location. */
  lemma PartitionRow(d: Entries, key: string, value: string, loc: Obj)
    requires '=' !in key && '=' !in value
    ensures CustomPartitionStep(d, [("PART_NAME", Str(key + "=" + value)), ("LOCATION", loc)])
         == Ok(Set(d, "custom_partitions", Dict([(key, Dict([("value", loc)]))])))
  {
    var e: Entries := [("PART_NAME", Str(key + "=" + value)), ("LOCATION", loc)];
    assert Field(e, "PART_NAME") == Str(key + "=" + value);
    assert e[1..] == [("LOCATION", loc)];
    assert Lookup(e[1..], "LOCATION") == Some(loc);
    assert Field(e, "LOCATION") == loc;
    SplitPartitionNamePieces(key, value);
  }

  // ---------------------------------------------------------------------
  // The query battery

  function SchemaTableStep(st: SchemaState, tag: string, recs: seq<Entries>): Result<SchemaState>
  {
    if tag == "Q2" then SchemaStorageStep(st, recs)
    else if tag == "Q3" then SchemaPropertiesStep(st, recs)
    else if tag == "Q6" then SchemaSortStep(st, recs)
    else if tag == "Q9" then SchemaColumnsStep(st, recs)
    else if tag == "Q10" then Ok(SchemaSerdeStep(st, recs))
    else if tag == "Q11" then SchemaSerdePropertiesStep(st, recs)
    else if tag == "Q12" then SchemaSkewStep(st, recs)
    else if tag == "Q16" then SchemaPartitionKeysStep(st, recs)
    else if tag == "Q17" then Ok(SchemaClusterStep(st, recs))
    else if tag == "Q18" then SchemaPartitionsStep(st, recs)
    else Ok(st)
  }

  function SchemaStep(st: SchemaState, tag: string, recs: seq<Entries>): (r: Result<SchemaOutcome>)
    ensures r == Ok(Missing) <==> tag == "Q1" && |recs| == 0
  {
    if tag == "Q1" then SchemaIdentityStep(st, recs)
    else
      var next :- SchemaTableStep(st, tag, recs);
      Ok(Building(next))
  }

  /** The state after the queries, run in order with the ids found so
      far. */
  function SchemaFold(source: Source, database: string, catalog: string, table: string,
                      queries: seq<(string, string)>): Result<SchemaOutcome>
  {
    if |queries| == 0 then Ok(Building(InitialSchema))
    else
      var prev :- SchemaFold(source, database, catalog, table, queries[..|queries| - 1]);
      match prev
      case Missing => Ok(Missing)
      case Building(st) =>
        var (tag, template) := queries[|queries| - 1];
        var recs :- Records(source(TableRequest(database, catalog, table, template, st.ids)));
        SchemaStep(st, tag, recs)
  }

  lemma {:induction false} SchemaFoldStops(source: Source, database: string, catalog: string, table: string,
                                           queries: seq<(string, string)>, n: nat)
    requires n <= |queries|
    requires var r := SchemaFold(source, database, catalog, table, queries[..n]); r.Err? || r == Ok(Missing)
    ensures SchemaFold(source, database, catalog, table, queries) == SchemaFold(source, database, catalog, table, queries[..n])
    decreases |queries| - n
  {
    if n < |queries| {
      assert queries[..n + 1][..n] == queries[..n];
      SchemaFoldStops(source, database, catalog, table, queries, n + 1);
    } else {
      assert queries[..n] == queries;
    }
  }

  /** What `get_table_schema` returns: the dictionary, or `None` when the
      table is missing or an exception was raised. */
  function TableSchemaOf(source: Source, database: string, catalog: string, table: string,
                         queries: seq<(string, string)>): Option<Obj>
  {
    match SchemaFold(source, database, catalog, table, queries)
    case Ok(Building(st)) => Some(Dict(st.dict))
    case _ => None
  }

  /** `DatabaseCompare.get_table_schema`. */
  method GetTableSchema(source: Source, database: string, catalog: string, table: string,
                        queries: seq<(string, string)>) returns (tableDict: Option<Obj>)
    ensures tableDict == TableSchemaOf(source, database, catalog, table, queries)
  {
    var st := InitialSchema;
    var i := 0;
    while i < |queries|
      invariant 0 <= i <= |queries|
      invariant SchemaFold(source, database, catalog, table, queries[..i]) == Ok(Building(st))
    {
      assert queries[..i + 1][..i] == queries[..i];
      var (tag, template) := queries[i];
      var recs := Records(source(TableRequest(database, catalog, table, template, st.ids)));
      if recs.Err? {
        SchemaFoldStops(source, database, catalog, table, queries, i + 1);
        return None;
      }
      var outcome := RunSchemaQuery(st, tag, recs.value);
      if outcome.Err? || outcome.value.Missing? {
        SchemaFoldStops(source, database, catalog, table, queries, i + 1);
        return None;
      }
      st := outcome.value.st;
      i := i + 1;
    }
    assert queries[..i] == queries;
    return Some(Dict(st.dict));
  }

  /** One tagged query, with its row loops run as loops. */
  method RunSchemaQuery(st: SchemaState, tag: string, recs: seq<Entries>) returns (outcome: Result<SchemaOutcome>)
    ensures outcome == SchemaStep(st, tag, recs)
  {
    if tag == "Q1" {
      return SchemaIdentityStep(st, recs);
    }
    var next: Result<SchemaState>;
    if tag == "Q3" {
      var p := RunFold(SchemaParams(Set(st.dict, "properties", Dict([])), []), recs, SchemaParamStep);
      next := if p.Ok? then Ok(st.(dict := Set(p.value.dict, "properties", Dict(p.value.props)))) else Err(p.error);
    } else if tag == "Q9" {
      var c := RunFold(SchemaColumns([], [], []), recs, SchemaColumnStep);
      next := if c.Ok? then Ok(st.(dict := Set(Set(Set(st.dict, "columns", Dict(c.value.columns)),
                                                   "data_types", List(c.value.types)),
                                               "column_list", List(c.value.names))))
              else Err(c.error);
    } else if tag == "Q11" {
      var props := RunFold([], recs, SerdePropertyStep);
      next := if props.Ok? then Ok(st.(dict := Set(st.dict, "serde_properties", Dict(props.value)))) else Err(props.error);
    } else if tag == "Q18" {
      var dict := RunFold(st.dict, recs, CustomPartitionStep);
      next := if dict.Ok? then Ok(st.(dict := dict.value)) else Err(dict.error);
    } else {
      next := SchemaTableStep(st, tag, recs);
    }
    assert next == SchemaTableStep(st, tag, recs);
    outcome := if next.Ok? then Ok(Building(next.value)) else Err(next.error);
  }

  // ---------------------------------------------------------------------
  // Properties

  /** A table missing from the metastore (Q1 first, with no row) has no
      schema, whatever the other queries are. */
  lemma MissingTableHasNoSchema(source: Source, database: string, catalog: string, table: string,
                                queries: seq<(string, string)>, cols: seq<string>)
    requires |queries| > 0 && queries[0].0 == "Q1"
    requires source(TableRequest(database, catalog, table, queries[0].1, InitialIds)) == Fetched([], cols)
    ensures TableSchemaOf(source, database, catalog, table, queries) == None
  {
    assert queries[..1][..0] == [];
    SchemaFoldStops(source, database, catalog, table, queries, 1);
  }

  /** Q2 records `bucket` exactly for a positive count, `location` exactly
      outside the database directory, and each format exactly when it is
      not NULL; a key it does not record keeps its earlier value. */
  lemma SchemaStorageRule(st: SchemaState, recs: seq<Entries>, n: int, dbUri: string, location: string)
    requires |recs| > 0
    requires Field(recs[0], "NUM_BUCKETS") == Int(n)
    requires Field(recs[0], "DB_LOCATION_URI") == Str(dbUri) && Field(recs[0], "LOCATION") == Str(location)
    requires SchemaStorageStep(st, recs).Ok?
    ensures var d := SchemaStorageStep(st, recs).value.dict;
      var ipf := Field(recs[0], "INPUT_FORMAT");
      var opf := Field(recs[0], "OUTPUT_FORMAT");
      var recorded := dbUri != "" && location != "" && !Contains(location, dbUri);
      Lookup(d, "bucket") == (if n > 0 then Some(BucketInfo(Int(n))) else Lookup(st.dict, "bucket"))
      && Lookup(d, "location") == (if recorded then Some(Str(location)) else Lookup(st.dict, "location"))
      && Lookup(d, "input_format") == (if ipf != Null then Some(ipf) else Lookup(st.dict, "input_format"))
      && Lookup(d, "output_format") == (if opf != Null then Some(opf) else Lookup(st.dict, "output_format"))
  {
    var recorded := dbUri != "" && location != "" && !Contains(location, dbUri);
    assert NeedsLocation(Str(dbUri), Str(location)) == Ok(recorded);
  }

  /** `sorted_by`, `skewed_columns` and `partitioned_by` are recorded
      exactly when their query returns a row; `clustered_by` exactly when
      the first row's value is not NULL. */
  lemma OptionalKeysRule(st: SchemaState, recs: seq<Entries>)
    ensures SchemaSortStep(st, recs).Ok? ==>
      (HasKey(SchemaSortStep(st, recs).value.dict, "sorted_by") <==> |recs| > 0 || HasKey(st.dict, "sorted_by"))
    ensures SchemaSkewStep(st, recs).Ok? ==>
      (HasKey(SchemaSkewStep(st, recs).value.dict, "skewed_columns") <==> |recs| > 0 || HasKey(st.dict, "skewed_columns"))
    ensures SchemaPartitionKeysStep(st, recs).Ok? ==>
      (HasKey(SchemaPartitionKeysStep(st, recs).value.dict, "partitioned_by") <==> |recs| > 0 || HasKey(st.dict, "partitioned_by"))
    ensures HasKey(SchemaClusterStep(st, recs).dict, "clustered_by")
      <==> (|recs| > 0 && Field(recs[0], "PARAM_VALUE") != Null) || HasKey(st.dict, "clustered_by")
  {
  }
}
