/** The metadata row source the tools read the metastore through, and the
    pieces of the per-table query battery that the DDL synthesiser and the
    table schema builder share: the identifiers threaded from one query to
    the next and the rules both apply to the storage-descriptor row. */
module Metastore {
  import opened Base
  import opened PyObj

  /** The identifiers discovered while the per-table queries run; each
      later query template is formatted with the current values. */
  datatype Ids = Ids(tableId: Obj, serdeId: Obj, sdId: Obj, cdId: Obj, dbLocationUri: Obj, dbManagedUri: Obj)

  /** The values before any query has run: ids 0, URIs empty. */
  const InitialIds := Ids(Int(0), Int(0), Int(0), Int(0), Str(""), Str(""))

  /** The named parameters of `query_template.format(...)`. */
  datatype Bindings = Bindings(database: string, catalog: string, table: string, ids: Ids)

  /** What the tools ask the metastore. The SQL text of each request is
      fixed per database dialect; the model keeps only what the request
      depends on. */
  datatype Request =
      /** A tagged per-table query template, formatted with the bindings. */
    | TableQuery(template: string, bindings: Bindings)
      /** `DESC` and `DB_LOCATION_URI` of the named database. */
    | DatabaseInfo(catalog: string)
      /** `TBL_NAME` of every table that is not a view, by `TBL_ID`. */
    | TableList(catalog: string)
      /** `TBL_ID` of every view and materialized view, by `TBL_ID`. */
    | ViewList(catalog: string)
      /** `TBL_TYPE`, `VIEW_EXPANDED_TEXT`, `TBL_NAME` of one view. */
    | ViewInfo(catalog: string, tableId: Obj)
      /** `CLASS_NAME`, `FUNC_NAME`, `FUNC_TYPE`, `OWNER_NAME`, by `FUNC_ID`. */
    | FunctionList(catalog: string)
      /** `TBL_ID`, `TBL_NAME`, `TBL_TYPE`, `IS_COMPRESSED`,
          `IS_STOREDASSUBDIRECTORIES`, `INPUT_FORMAT`, `OUTPUT_FORMAT`,
          `SLIB` of every table of the database. */
    | IcebergCandidates(catalog: string)
      /** `PARAM_KEY`, `PARAM_VALUE` of one table's parameters. */
    | TableParams(tableId: Obj)

  /** `dbo.query(sql)`. Both drivers return the pair `(rows, cols)` for a
      statement with a result, and the pair `(None, None)` for one without,
      when their pool is not set up, and (MySQL) when the statement raises;
      the PostgreSQL driver returns a bare `None` when the statement
      raises. */
  datatype Fetch = Fetched(rows: seq<seq<Obj>>, cols: seq<string>) | NonePair | FetchFailed

  /** The metastore, as seen through `dbo.query`. */
  type Source = Request -> Fetch

  /** `rows, cols = dbo.query(...)`, then `len(rows)` or `for row in
      rows`: unpacking a bare `None` raises, and so does iterating the
      `None` unpacked from `(None, None)`. */
  function RowsOf(f: Fetch): (r: Result<seq<seq<Obj>>>)
    ensures f.Fetched? <==> r.Ok?
    ensures f.Fetched? ==> r.value == f.rows
  {
    match f
    case Fetched(rows, _) => Ok(rows)
    case NonePair => Err(TypeError("'NoneType' object is not iterable"))
    case FetchFailed => Err(TypeError("cannot unpack non-iterable NoneType object"))
  }

  /** `results = dbo.query(...)`, kept whole as the database queries keep
      it. */
  function Answer(f: Fetch): Obj
  {
    match f
    case Fetched(rows, cols) => Tuple([RowsObj(rows), StrList(cols)])
    case NonePair => Tuple([Null, Null])
    case FetchFailed => Null
  }

  /** `if len(results) > 0:` then `results[0]` and `results[1]`: the two
      cells of a non-empty result, `None` when it is empty (the "database
      not found" branch), or what `len` or the subscripts raise. */
  function FirstTwo(results: Obj): (r: Result<Option<(Obj, Obj)>>)
    ensures r == Ok(None) <==> Len(results) == Ok(0)
    ensures r.Ok? ==> Len(results).Ok?
    ensures r.Ok? && r.value.Some? ==>
      Index(results, 0) == Ok(r.value.value.0) && Index(results, 1) == Ok(r.value.value.1)
  {
    var n :- Len(results);
    if n > 0 then
      var comment :- Index(results, 0);
      var location :- Index(results, 1);
      Ok(Some((comment, location)))
    else Ok(None)
  }

  /** The cells the database queries read: the list of row tuples and the
      list of column names for a result, `None` twice for `(None, None)`;
      only a bare `None` raises, and a result is never empty, so the "not
      found" branch is never taken. */
  lemma {:induction false} DatabaseCells(f: Fetch)
    ensures FirstTwo(Answer(f)).Err? <==> f.FetchFailed?
    ensures f.Fetched? ==> FirstTwo(Answer(f)) == Ok(Some((RowsObj(f.rows), StrList(f.cols))))
    ensures f.NonePair? ==> FirstTwo(Answer(f)) == Ok(Some((Null, Null)))
  {
    match f
    case Fetched(rows, cols) =>
      assert Len(Answer(f)) == Ok(2);
    case NonePair =>
      assert Len(Answer(f)) == Ok(2);
    case FetchFailed =>
  }

  /** The rows of a result as Python holds them: a list of tuples. */
  function RowsObj(rows: seq<seq<Obj>>): (r: Obj)
    ensures r.List? && |r.items| == |rows|
    ensures forall k :: 0 <= k < |rows| ==> r.items[k] == Tuple(rows[k])
  {
    List(seq(|rows|, k requires 0 <= k < |rows| => Tuple(rows[k])))
  }

  /** `row[i]` on a result row. */
  function Cell(row: seq<Obj>, i: nat): (r: Result<Obj>)
    ensures r.Ok? <==> i < |row|
    ensures i < |row| ==> r.value == row[i]
  {
    if i < |row| then Ok(row[i]) else Err(IndexError)
  }

  /** `[dict(zip(cols, row)) for row in rows]`: one record per row, in row
      order. */
  function Records(f: Fetch): (r: Result<seq<Entries>>)
    ensures f.Fetched? <==> r.Ok?
    ensures f.Fetched? ==> |r.value| == |f.rows|
    ensures f.Fetched? ==> forall k :: 0 <= k < |f.rows| ==> r.value[k] == Zip(f.cols, f.rows[k])
  {
    match f
    case Fetched(rows, cols) => Ok(seq(|rows|, k requires 0 <= k < |rows| => Zip(cols, rows[k])))
    case NonePair => Err(TypeError("object of type 'NoneType' has no len()"))
    case FetchFailed => Err(TypeError("cannot unpack non-iterable NoneType object"))
  }

  /** The request of one tagged per-table query, given the current ids. */
  function TableRequest(database: string, catalog: string, table: string, template: string, ids: Ids): Request
  {
    TableQuery(template, Bindings(database, catalog, table, ids))
  }

  // ---------------------------------------------------------------------
  // Rules both per-table folds apply

  /** The stripped `TBL_TYPE` of the identity row (`ttype.strip()`); a
      missing or non-text type raises. */
  function StrippedType(ttype: Obj): (r: Result<string>)
    ensures ttype.Str? <==> r.Ok?
    ensures ttype.Str? ==> r.value == Strip(ttype.s)
  {
    if ttype.Str? then Ok(Strip(ttype.s)) else Err(AttributeError("strip"))
  }

  /** `db_managed_uri` after the storage-descriptor row: when the database
      URI is set and the managed URI is not, the managed URI is the
      database URI with every `external` replaced by `managed`. */
  function DeriveManagedUri(dbLocationUri: Obj, dbManagedUri: Obj): (r: Result<Obj>)
    ensures !Truthy(dbLocationUri) || Truthy(dbManagedUri) ==> r == Ok(dbManagedUri)
    ensures Truthy(dbLocationUri) && !Truthy(dbManagedUri) && dbLocationUri.Str? ==>
      r == Ok(Str(ReplaceAll(dbLocationUri.s, "external", "managed")))
  {
    if Truthy(dbLocationUri) && !Truthy(dbManagedUri) then
      if dbLocationUri.Str? then Ok(Str(ReplaceAll(dbLocationUri.s, "external", "managed")))
      else Err(AttributeError("replace"))
    else Ok(dbManagedUri)
  }

  /** Whether the table's location is recorded: both the database URI and
      the location are non-empty and the database URI does not occur in the
      location (`not db_location_uri in location`). */
  function NeedsLocation(dbLocationUri: Obj, location: Obj): (r: Result<bool>)
    ensures dbLocationUri.Str? && location.Str? ==>
      r == Ok(dbLocationUri.s != "" && location.s != "" && !Contains(location.s, dbLocationUri.s))
  {
    if Truthy(dbLocationUri) && Truthy(location) then
      var inside :- In(dbLocationUri, location);
      Ok(!inside)
    else Ok(false)
  }

  /** The `bucket` entry of the table dictionary. */
  function BucketInfo(numBuckets: Obj): Obj
  {
    Dict([("bucketed", Bool(true)), ("num_buckets", numBuckets)])
  }

  /** A table stored in the database's own directory (its location starts
      with the database URI) never has its location recorded. */
  lemma DefaultLocationNotRecorded(dbLocationUri: string, rest: string)
    ensures NeedsLocation(Str(dbLocationUri), Str(dbLocationUri + rest)) == Ok(false)
  {
    ContainsAt(dbLocationUri + rest, dbLocationUri, 0);
  }

  // ---------------------------------------------------------------------
  // Formatting every record of a result

  /** The list `[fmt(entry) for entry in results]`, or the first exception
      `fmt` raises. */
  function MapRecords(recs: seq<Entries>, fmt: Entries -> Result<string>): (r: Result<seq<string>>)
    ensures r.Ok? ==> |r.value| == |recs|
    ensures r.Ok? ==> forall k :: 0 <= k < |recs| ==> fmt(recs[k]) == Ok(r.value[k])
    ensures (forall k :: 0 <= k < |recs| ==> fmt(recs[k]).Ok?) ==> r.Ok?
  {
    if |recs| == 0 then Ok([])
    else
      var init :- MapRecords(recs[..|recs| - 1], fmt);
      var last :- fmt(recs[|recs| - 1]);
      Ok(init + [last])
  }

  /** The `for entry in results: arr.append(...)` loop. */
  method FormatRecords(recs: seq<Entries>, fmt: Entries -> Result<string>) returns (r: Result<seq<string>>)
    ensures r == MapRecords(recs, fmt)
  {
    var arr: seq<string> := [];
    var i := 0;
    while i < |recs|
      invariant 0 <= i <= |recs|
      invariant MapRecords(recs[..i], fmt) == Ok(arr)
    {
      var line := fmt(recs[i]);
      assert recs[..i + 1][..i] == recs[..i];
      if line.Err? {
        MapRecordsStops(recs, fmt, i + 1);
        return Err(line.error);
      }
      arr := arr + [line.value];
      i := i + 1;
    }
    assert recs[..i] == recs;
    return Ok(arr);
  }

  /** Once an entry raises, the whole loop raises that exception. */
  lemma {:induction false} MapRecordsStops(recs: seq<Entries>, fmt: Entries -> Result<string>, n: nat)
    requires n <= |recs| && MapRecords(recs[..n], fmt).Err?
    ensures MapRecords(recs, fmt) == MapRecords(recs[..n], fmt)
    decreases |recs| - n
  {
    if n < |recs| {
      assert recs[..n + 1][..n] == recs[..n];
      MapRecordsStops(recs, fmt, n + 1);
    } else {
      assert recs[..n] == recs;
    }
  }

  // ---------------------------------------------------------------------
  // Table parameters (Q3)

  /** Where a table parameter ends up. */
  datatype Route =
    | Dropped      // COLUMN_STATS_ACCURATE and EXTERNAL are skipped
    | StoredBy     // storage_handler becomes the STORED BY clause
    | TableComment // comment becomes the COMMENT clause
    | Statistic    // numFiles, numFilesErasureCoded, totalSize: recorded only
    | Property     // everything else: recorded and emitted in TBLPROPERTIES

  function RouteOf(key: Obj): Route
  {
    if key == Str("COLUMN_STATS_ACCURATE") || key == Str("EXTERNAL") then Dropped
    else if key == Str("storage_handler") then StoredBy
    else if key == Str("comment") then TableComment
    else if key == Str("numFiles") || key == Str("numFilesErasureCoded") || key == Str("totalSize") then Statistic
    else Property
  }

  /** Whether a parameter key lands in the `properties` entry. */
  predicate Recorded(key: Obj)
  {
    RouteOf(key) == Statistic || RouteOf(key) == Property
  }

  /** The assignments the loop makes to `properties`, in order: every
      recorded parameter, as `(key, value)`. */
  function RecordedPairs(recs: seq<Entries>): Entries
  {
    if |recs| == 0 then []
    else
      var e := recs[|recs| - 1];
      var key := Field(e, "PARAM_KEY");
      RecordedPairs(recs[..|recs| - 1])
      + (if key.Str? && Recorded(key) then [(key.s, Field(e, "PARAM_VALUE"))] else [])
  }

  /** One more row at the end. */
  lemma RecordedPairsSnoc(recs: seq<Entries>, e: Entries)
    ensures var key := Field(e, "PARAM_KEY");
      RecordedPairs(recs + [e])
      == RecordedPairs(recs) + (if key.Str? && Recorded(key) then [(key.s, Field(e, "PARAM_VALUE"))] else [])
  {
    assert (recs + [e])[..|recs|] == recs;
  }

  /** The `properties` built from the rows, one row at a time. */
  lemma RecordedPropsSnoc(recs: seq<Entries>)
    requires |recs| > 0
    ensures var e := recs[|recs| - 1];
      var key := Field(e, "PARAM_KEY");
      var before := FromPairs(RecordedPairs(recs[..|recs| - 1]));
      FromPairs(RecordedPairs(recs))
      == if key.Str? && Recorded(key) then Set(before, key.s, Field(e, "PARAM_VALUE")) else before
  {
    var e := recs[|recs| - 1];
    var key := Field(e, "PARAM_KEY");
    var pairs := RecordedPairs(recs[..|recs| - 1]);
    if key.Str? && Recorded(key) {
      FromPairsSnoc(pairs, (key.s, Field(e, "PARAM_VALUE")));
    } else {
      assert RecordedPairs(recs) == pairs + [] == pairs;
    }
  }

  lemma {:induction false} RecordedPairsRecorded(recs: seq<Entries>)
    ensures forall key :: HasKey(RecordedPairs(recs), key) ==> Recorded(Str(key))
  {
    if |recs| > 0 {
      RecordedPairsRecorded(recs[..|recs| - 1]);
      var pairs := RecordedPairs(recs);
      forall key | HasKey(pairs, key) ensures Recorded(Str(key)) {
        var k :| 0 <= k < |pairs| && pairs[k].0 == key;
        var init := RecordedPairs(recs[..|recs| - 1]);
        if k < |init| {
          assert init[k] == pairs[k];
        }
      }
    }
  }

  // ---------------------------------------------------------------------
  // Row renderings both folds share

  /** One `name order` item of SORTED BY. */
  function SortKeyText(entry: Entries): Result<string>
  {
    var name :- Column(entry, "COLUMN_NAME");
    var order :- Column(entry, "ORDER");
    Ok(Show(name) + " " + Show(order))
  }

  /** One `'name'` item of the skew list. */
  function SkewedColumnText(entry: Entries): Result<string>
  {
    var name :- Column(entry, "SKEWED_COL_NAME");
    Ok("'" + Show(name) + "'")
  }

  /** One `` `name` type `` item of PARTITIONED BY. */
  function PartitionKeyText(entry: Entries): Result<string>
  {
    var name :- Column(entry, "PKEY_NAME");
    var ptype :- Column(entry, "PKEY_TYPE");
    Ok("`" + Show(name) + "` " + Show(ptype))
  }

  /** `key, value = part_key.split('=')`: a partition name must be text
      holding exactly one `=`. */
  function SplitPartitionName(partName: Obj): (r: Result<(string, string)>)
    ensures r.Ok? ==> partName.Str? && partName.s == r.value.0 + "=" + r.value.1
  {
    if !partName.Str? then Err(AttributeError("split"))
    else
      var pieces := Split(partName.s, '=');
      if |pieces| != 2 then Err(ValueError("unpack"))
      else
        SplitJoin(partName.s, '=');
        Ok((pieces[0], pieces[1]))
  }

  /** A partition name splits exactly when it holds one `=`; two pieces
      without `=` come back unchanged. */
  lemma SplitPartitionNameExactly(s: string)
    ensures SplitPartitionName(Str(s)).Ok? <==> Count(s, '=') == 1
  {
    SplitCount(s, '=');
  }

  lemma SplitPartitionNamePieces(key: string, value: string)
    requires '=' !in key && '=' !in value
    ensures SplitPartitionName(Str(key + "=" + value)) == Ok((key, value))
  {
    SplitPair(key, value, '=');
  }
}
