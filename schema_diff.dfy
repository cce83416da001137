/** The schema comparator's rules: the difference tree it returns for two
    nested schema dictionaries and the reconciliation statements it emits
    on the way. Each comparison is a function giving an `Outcome`: the
    difference found (or the exception raised) together with the statements
    appended to the comparator's statement list, in order. The comparator
    class in module Comparator performs the same comparisons step by step
    and is proved to agree with these functions. */
module SchemaDiff {
  import opened Base
  import opened PyObj
  import Config

  // ---------------------------------------------------------------------
  // Statements

  /** The three kinds of schema object the comparator looks at, under the
      keys `tables`, `views` and `udfs`. */
  datatype ObjectKind = Tables | Views | Udfs

  function KindName(kind: ObjectKind): string
  {
    match kind
    case Tables => "tables"
    case Views => "views"
    case Udfs => "udfs"
  }

  function DropKeyword(kind: ObjectKind): string
  {
    match kind
    case Tables => "TABLE"
    case Views => "VIEW"
    case Udfs => "FUNCTION"
  }

  /** A reconciliation statement, holding the already evaluated pieces its
      text is made of. */
  datatype Statement =
    | CreateTable(schema: string, table: string, columns: string, primaryKey: string,
                  bucket: string, serdes: string, location: string)
    | CreateView(schema: string, view: string, definition: Obj)
    | CreateFunction(schema: string, udf: string, returnType: Obj, argument: Obj)
    | Drop(kind: ObjectKind, schema: string, name: string)
    | AddColumn(schema: string, table: string, column: Obj, dataType: Obj)
    | DropColumn(schema: string, table: string, column: Obj)
    | SetSerde(schema: string, table: string, serde: Obj)
    | SetLocation(schema: string, table: string, path: Obj)
    | DropPrimaryKey(schema: string, table: string)
    | AddPrimaryKey(schema: string, table: string, columns: string)
    | ClusterBy(schema: string, table: string, columns: string, buckets: Obj)
    | ReplaceView(schema: string, view: string, query: Obj)
  {
    /** A statement that creates a schema object missing from the first
        schema. */
    predicate IsCreation()
    {
      CreateTable? || CreateView? || CreateFunction?
    }

    /** A statement that changes an object both schemas hold. */
    predicate IsAlteration()
    {
      AddColumn? || DropColumn? || SetSerde? || SetLocation? || DropPrimaryKey?
      || AddPrimaryKey? || ClusterBy? || ReplaceView?
    }

    /** The kind of object the statement is about. */
    function Kind(): ObjectKind
    {
      match this
      case CreateView(_, _, _) => Views
      case ReplaceView(_, _, _) => Views
      case CreateFunction(_, _, _, _) => Udfs
      case Drop(kind, _, _) => kind
      case _ => Tables
    }
  }

  /** The text appended to the statement list: the statement's opening
      words, then the rest. */
  function Text(st: Statement): string
  {
    Opening(st) + Rest(st)
  }

  /** The fixed words a statement's text begins with. */
  function Opening(st: Statement): string
  {
    match st
    case CreateTable(_, _, _, _, _, _, _) => "CREATE TABLE "
    case CreateView(_, _, _) => "CREATE VIEW "
    case CreateFunction(_, _, _, _) => "CREATE FUNCTION "
    case Drop(kind, _, _) => "DROP "
    case ReplaceView(_, _, _) => "CREATE OR REPLACE VIEW "
    case _ => "ALTER TABLE "
  }

  function Rest(st: Statement): string
  {
    match st
    case CreateTable(s, t, columns, primaryKey, bucket, serdes, location) =>
      s + "." + t + " (" + columns + ", " + primaryKey + ") " + bucket + " " + serdes + " " + location + ";"
    case CreateView(s, v, definition) => s + "." + v + " AS " + Show(definition) + ";"
    case CreateFunction(s, u, returnType, argument) =>
      s + "." + u + " AS '" + Show(returnType) + "' RETURNS " + Show(argument) + ";"
    case Drop(kind, s, n) => DropKeyword(kind) + " " + s + "." + n + ";"
    case ReplaceView(s, v, query) => s + "." + v + " AS " + Show(query) + ";"
    case AddColumn(s, t, column, dataType) => s + "." + t + " ADD COLUMNS (" + Show(column) + " " + Show(dataType) + ");"
    case DropColumn(s, t, column) => s + "." + t + " DROP COLUMN " + Show(column) + ";"
    case SetSerde(s, t, serde) => s + "." + t + " SET SERDE '" + Show(serde) + "';"
    case SetLocation(s, t, path) => s + "." + t + " SET LOCATION '" + Show(path) + "';"
    case DropPrimaryKey(s, t) => s + "." + t + " DROP PRIMARY KEY;"
    case AddPrimaryKey(s, t, columns) => s + "." + t + " ADD PRIMARY KEY (" + columns + ");"
    case ClusterBy(s, t, columns, buckets) =>
      s + "." + t + " CLUSTERED BY (" + columns + ") INTO " + Show(buckets) + " BUCKETS;"
  }

  /** Creations open with `CREATE TABLE|VIEW|FUNCTION`, drops with `DROP`,
      and alterations with `ALTER TABLE` or `CREATE OR REPLACE VIEW`; so the
      kind of a statement can be read off its text. */
  lemma StatementOpening(st: Statement)
    ensures st.IsCreation() ==>
      IsPrefix("CREATE TABLE ", Text(st)) || IsPrefix("CREATE VIEW ", Text(st)) || IsPrefix("CREATE FUNCTION ", Text(st))
    ensures st.Drop? ==> IsPrefix("DROP ", Text(st))
    ensures st.IsAlteration() ==> IsPrefix("ALTER TABLE ", Text(st)) || IsPrefix("CREATE OR REPLACE VIEW ", Text(st))
  {
    PrefixOfConcat(Opening(st), Rest(st));
  }

  // ---------------------------------------------------------------------
  // The difference tree

  /** `_compare_sets`: the keys `only_in_1_<name>` and `only_in_2_<name>`,
      each holding a set difference and present only when it is not
      empty. */
  type SetDiff = seq<(string, set<string>)>

  /** One differing attribute: its value in each schema. */
  datatype Change = Change(schema1: Obj, schema2: Obj)

  /** A column found on one side only, with its type on that side. */
  datatype ColumnChange = ColumnChange(column: Obj, dataType: Obj)

  datatype ColumnsDiff = ColumnsDiff(newColumns: seq<ColumnChange>, droppedColumns: seq<ColumnChange>)

  /** The attribute differences of one object; a field that is `None`
      stands for a key the dictionary does not hold. */
  datatype AttributesDiff = AttributesDiff(
    columns: Option<ColumnsDiff>, serdes: Option<Change>, location: Option<Change>,
    primaryKey: Option<Change>, bucket: Option<Change>, query: Option<Change>)

  const NoAttributes := AttributesDiff(None, None, None, None, None, None)

  /** `added_objects`, `dropped_objects`, the optional `name_differences`
      and `modified_objects`. */
  datatype ObjectsDiff = ObjectsDiff(added: seq<string>, dropped: seq<string>,
                                     nameDifferences: Option<SetDiff>, modified: seq<(string, AttributesDiff)>)

  datatype SchemaObjectsDiff = SchemaObjectsDiff(tables: Option<ObjectsDiff>, views: Option<ObjectsDiff>,
                                                 udfs: Option<ObjectsDiff>)

  const NoObjects := SchemaObjectsDiff(None, None, None)

  /** The result of `compare_schemas`: the optional `schemas` entry and one
      entry per schema, in order, whose objects differ. */
  datatype SchemasDiff = SchemasDiff(schemas: Option<SetDiff>, perSchema: seq<(string, SchemaObjectsDiff)>)

  /** `_compare_sets`. */
  function CompareSets(set1: set<string>, set2: set<string>, name: string): (r: Option<SetDiff>)
    ensures r.None? <==> set1 == set2
    ensures r.Some? ==> forall e :: e in r.value <==>
      (e == ("only_in_1_" + name, set1 - set2) && set1 - set2 != {})
      || (e == ("only_in_2_" + name, set2 - set1) && set2 - set1 != {})
  {
    var d := (if set1 - set2 != {} then [("only_in_1_" + name, set1 - set2)] else [])
             + (if set2 - set1 != {} then [("only_in_2_" + name, set2 - set1)] else []);
    EmptyDifferences(set1, set2);
    if d == [] then None else Some(d)
  }

  lemma EmptyDifferences(set1: set<string>, set2: set<string>)
    ensures set1 - set2 == {} && set2 - set1 == {} <==> set1 == set2
  {
    if set1 - set2 == {} && set2 - set1 == {} {
      forall x | x in set1 ensures x in set2 { assert x !in set1 - set2; }
      forall x | x in set2 ensures x in set1 { assert x !in set2 - set1; }
    }
  }

  // ---------------------------------------------------------------------
  // Outcomes and loops

  /** What one comparison does: its result or exception, and the statements
      it appended before returning or raising. */
  datatype Outcome<T> = Outcome(result: Result<T>, appended: seq<Statement>)

  /** A loop whose body may append statements and may raise: the loop ends
      at the first exception, keeping what was appended until then. */
  function Run<A, X>(a0: A, xs: seq<X>, step: (A, X) -> Outcome<A>): Outcome<A>
  {
    if |xs| == 0 then Outcome(Ok(a0), [])
    else
      var before := Run(a0, xs[..|xs| - 1], step);
      if before.result.Err? then before
      else
        var last := step(before.result.value, xs[|xs| - 1]);
        Outcome(last.result, before.appended + last.appended)
  }

  /** A run that does not raise did not raise on any prefix either. */
  lemma RunPrefixOk<A, X>(a0: A, xs: seq<X>, step: (A, X) -> Outcome<A>, n: nat)
    requires n <= |xs| && Run(a0, xs, step).result.Ok?
    ensures Run(a0, xs[..n], step).result.Ok?
  {
    if Run(a0, xs[..n], step).result.Err? {
      RunStops(a0, xs, step, n);
    }
  }

  /** Once the body raises, the loop ends with what it had. */
  lemma {:induction false} RunStops<A, X>(a0: A, xs: seq<X>, step: (A, X) -> Outcome<A>, n: nat)
    requires n <= |xs| && Run(a0, xs[..n], step).result.Err?
    ensures Run(a0, xs, step) == Run(a0, xs[..n], step)
    decreases |xs| - n
  {
    if n < |xs| {
      assert xs[..n + 1][..n] == xs[..n];
      RunStops(a0, xs, step, n + 1);
    } else {
      assert xs[..n] == xs;
    }
  }

  /** One more pass of a loop that has not raised yet, with the statements
      appended after those already in `log`. */
  lemma RunNext<A, X>(a0: A, xs: seq<X>, step: (A, X) -> Outcome<A>, i: nat, log: seq<Statement>)
    requires i < |xs| && Run(a0, xs[..i], step).result.Ok?
    ensures var before := Run(a0, xs[..i], step);
      var last := step(before.result.value, xs[i]);
      Run(a0, xs[..i + 1], step).result == last.result
      && log + Run(a0, xs[..i + 1], step).appended == log + before.appended + last.appended
  {
    assert xs[..i + 1][..i] == xs[..i];
  }

  /** Two steps one after the other: the second is not reached when the
      first raises, and the statements of both are kept in order. */
  function Both<A, B>(a: Outcome<A>, b: Outcome<B>): (r: Outcome<(A, B)>)
    ensures forall st :: st in r.appended ==> st in a.appended || st in b.appended
    ensures r.result.Ok? <==> a.result.Ok? && b.result.Ok?
    ensures r.result.Ok? ==> a.result == Ok(r.result.value.0) && b.result == Ok(r.result.value.1)
  {
    if a.result.Err? then Outcome(Err(a.result.error), a.appended)
    else if b.result.Err? then Outcome(Err(b.result.error), a.appended + b.appended)
    else Outcome(Ok((a.result.value, b.result.value)), a.appended + b.appended)
  }

  /** A loop whose body never appends anything and never changes the state
      appends nothing and ends with the state it began with. */
  lemma {:induction false} RunQuiet<A, X>(a0: A, xs: seq<X>, step: (A, X) -> Outcome<A>)
    requires forall k :: 0 <= k < |xs| ==> step(a0, xs[k]).appended == []
    requires forall k :: 0 <= k < |xs| ==> step(a0, xs[k]).result.Ok? ==> step(a0, xs[k]).result.value == a0
    ensures Run(a0, xs, step).appended == []
    ensures Run(a0, xs, step).result.Ok? ==> Run(a0, xs, step).result.value == a0
  {
    if |xs| > 0 {
      var init := xs[..|xs| - 1];
      assert forall k :: 0 <= k < |init| ==> init[k] == xs[k];
      RunQuiet(a0, init, step);
    }
  }

  // ---------------------------------------------------------------------
  // Names

  /** The names among `names` that `d` holds (`present`) or lacks, in the
      order of `names`: the model's iteration order for the set operations
      of the comparator. */
  function NamesWhere(names: seq<string>, d: Entries, present: bool): (r: seq<string>)
    ensures forall n :: n in r <==> n in names && HasKey(d, n) == present
    ensures |r| <= |names|
  {
    if |names| == 0 then []
    else (if HasKey(d, names[0]) == present then [names[0]] else []) + NamesWhere(names[1..], d, present)
  }

  /** No name occurs twice. */
  predicate Distinct(names: seq<string>)
  {
    forall j, k :: 0 <= j < k < |names| ==> names[j] != names[k]
  }

  /** Names drawn from distinct names are distinct. */
  lemma {:induction false} NamesWhereDistinct(names: seq<string>, d: Entries, present: bool)
    requires Distinct(names)
    ensures Distinct(NamesWhere(names, d, present))
  {
    if |names| > 0 {
      var rest := names[1..];
      assert Distinct(rest) by {
        assert forall j, k :: 0 <= j < k < |rest| ==> rest[j] == names[j + 1] && rest[k] == names[k + 1];
      }
      NamesWhereDistinct(rest, d, present);
      assert names[0] !in rest by {
        forall k | 0 <= k < |rest| ensures rest[k] != names[0] { assert rest[k] == names[k + 1]; }
      }
      var r := NamesWhere(names, d, present);
      var tail := NamesWhere(rest, d, present);
      assert Distinct(tail);
      if HasKey(d, names[0]) == present {
        assert r == [names[0]] + tail;
        forall j, k | 0 <= j < k < |r| ensures r[j] != r[k] {
          assert r[k] == tail[k - 1] && tail[k - 1] in tail;
          if j > 0 {
            assert r[j] == tail[j - 1];
          } else {
            assert r[j] == names[0];
          }
        }
      } else {
        assert r == tail;
      }
    }
  }

  /** No name is taken when none qualifies. */
  lemma {:induction false} NamesWhereNone(names: seq<string>, d: Entries, present: bool)
    requires forall k :: 0 <= k < |names| ==> HasKey(d, names[k]) != present
    ensures NamesWhere(names, d, present) == []
  {
    if |names| > 0 {
      assert forall k :: 0 <= k < |names[1..]| ==> names[1..][k] == names[k + 1];
      NamesWhereNone(names[1..], d, present);
    }
  }

  /** `obj2_names - obj1_names`. */
  function AddedNames(d1: Entries, d2: Entries): seq<string>
  {
    NamesWhere(Keys(d2), d1, false)
  }

  /** `obj1_names - obj2_names`. */
  function DroppedNames(d1: Entries, d2: Entries): seq<string>
  {
    NamesWhere(Keys(d1), d2, false)
  }

  /** `obj1_names.intersection(obj2_names)`. */
  function CommonNames(d1: Entries, d2: Entries): seq<string>
  {
    NamesWhere(Keys(d1), d2, true)
  }

  // ---------------------------------------------------------------------
  // Columns: `_compare_columns`

  /** The first loop of `_compare_columns` adds columns, the second drops
      them. */
  datatype ColumnOp = Adding | Dropping

  /** Python `enumerate`. */
  function Enumerate(items: seq<Obj>): (r: seq<(nat, Obj)>)
    ensures |r| == |items|
    ensures forall k :: 0 <= k < |items| ==> r[k] == (k, items[k])
  {
    seq(|items|, k requires 0 <= k < |items| => (k, items[k]))
  }

  lemma EnumeratePrefix(items: seq<Obj>, n: nat)
    requires n <= |items|
    ensures Enumerate(items)[..n] == Enumerate(items[..n])
  {
  }

  function ColumnStatement(op: ColumnOp, schema: string, table: string, c: ColumnChange): Statement
  {
    match op
    case Adding => AddColumn(schema, table, c.column, c.dataType)
    case Dropping => DropColumn(schema, table, c.column)
  }

  function ColumnStatements(op: ColumnOp, schema: string, table: string, cs: seq<ColumnChange>): (r: seq<Statement>)
    ensures |r| == |cs|
    ensures forall k :: 0 <= k < |cs| ==> r[k] == ColumnStatement(op, schema, table, cs[k])
  {
    seq(|cs|, k requires 0 <= k < |cs| => ColumnStatement(op, schema, table, cs[k]))
  }

  /** One pass of a column loop: a column that the other side's list does
      not hold is recorded with its type at the same position, and its
      statement is appended. */
  function ColumnStep(op: ColumnOp, other: Obj, types: Obj, schema: string, table: string,
                      found: seq<ColumnChange>, x: (nat, Obj)): Outcome<seq<ColumnChange>>
  {
    match In(x.1, other)
    case Err(e) => Outcome(Err(e), [])
    case Ok(present) =>
      if present then Outcome(Ok(found), [])
      else
        match Index(types, x.0)
        case Err(e) => Outcome(Err(e), [])
        case Ok(ty) =>
          var c := ColumnChange(x.1, ty);
          Outcome(Ok(found + [c]), [ColumnStatement(op, schema, table, c)])
  }

  function ColumnStepOf(op: ColumnOp, other: Obj, types: Obj, schema: string, table: string)
    : (seq<ColumnChange>, (nat, Obj)) -> Outcome<seq<ColumnChange>>
  {
    (found, x) => ColumnStep(op, other, types, schema, table, found, x)
  }

  /** One column loop of `_compare_columns` over the items of one side. */
  function ColumnRun(op: ColumnOp, items: seq<Obj>, other: Obj, types: Obj, schema: string, table: string)
    : Outcome<seq<ColumnChange>>
  {
    Run([], Enumerate(items), ColumnStepOf(op, other, types, schema, table))
  }

  /** One more pass of a column loop that has not raised yet. */
  lemma ColumnRunNext(op: ColumnOp, other: Obj, types: Obj, schema: string, table: string,
                      en: seq<(nat, Obj)>, i: nat, log: seq<Statement>)
    requires i < |en| && Run([], en[..i], ColumnStepOf(op, other, types, schema, table)).result.Ok?
    ensures var before := Run([], en[..i], ColumnStepOf(op, other, types, schema, table));
      var last := ColumnStep(op, other, types, schema, table, before.result.value, en[i]);
      Run([], en[..i + 1], ColumnStepOf(op, other, types, schema, table)).result == last.result
      && log + Run([], en[..i + 1], ColumnStepOf(op, other, types, schema, table)).appended
         == log + before.appended + last.appended
  {
    RunNext([], en, ColumnStepOf(op, other, types, schema, table), i, log);
  }

  /** `_compare_columns(cols1, cols2, types1, types2, table, schema)`. */
  function ColumnsOutcome(cols1: Obj, cols2: Obj, types1: Obj, types2: Obj, schema: string, table: string)
    : Outcome<Option<ColumnsDiff>>
  {
    match Items(cols2)
    case Err(e) => Outcome(Err(e), [])
    case Ok(items2) =>
      var added := ColumnRun(Adding, items2, cols1, types2, schema, table);
      if added.result.Err? then Outcome(Err(added.result.error), added.appended)
      else
        match Items(cols1)
        case Err(e) => Outcome(Err(e), added.appended)
        case Ok(items1) =>
          var dropped := ColumnRun(Dropping, items1, cols2, types1, schema, table);
          var appended := added.appended + dropped.appended;
          if dropped.result.Err? then Outcome(Err(dropped.result.error), appended)
          else if added.result.value == [] && dropped.result.value == [] then Outcome(Ok(None), appended)
          else Outcome(Ok(Some(ColumnsDiff(added.result.value, dropped.result.value))), appended)
  }

  /** The positions, in order, of the items the other side does not hold:
      the reference the column loops are checked against. */
  function Absent(items: seq<Obj>, other: Obj): seq<nat>
  {
    if |items| == 0 then []
    else Absent(items[..|items| - 1], other) + (if In(items[|items| - 1], other) == Ok(false) then [|items| - 1] else [])
  }

  /** `Absent` lists, in increasing order, exactly the positions whose item
      is not in the other side. */
  lemma {:induction false} AbsentExact(items: seq<Obj>, other: Obj)
    ensures forall k :: 0 <= k < |Absent(items, other)| ==> Absent(items, other)[k] < |items|
    ensures forall j, k :: 0 <= j < k < |Absent(items, other)| ==> Absent(items, other)[j] < Absent(items, other)[k]
    ensures forall i :: 0 <= i < |items| ==> (i in Absent(items, other) <==> In(items[i], other) == Ok(false))
  {
    if |items| > 0 {
      var init := items[..|items| - 1];
      AbsentExact(init, other);
      assert forall i :: 0 <= i < |init| ==> init[i] == items[i];
    }
  }

  /** A column loop finishes exactly when every membership test succeeds
      and every absent item has a type at its position. */
  lemma {:induction false} ColumnRunSucceeds(op: ColumnOp, items: seq<Obj>, other: Obj, types: Obj, schema: string, table: string)
    ensures ColumnRun(op, items, other, types, schema, table).result.Ok? <==>
      (forall i :: 0 <= i < |items| ==> In(items[i], other).Ok?) &&
      (forall i :: 0 <= i < |items| && In(items[i], other) == Ok(false) ==> Index(types, i).Ok?)
  {
    if |items| > 0 {
      var n := |items| - 1;
      var init := items[..n];
      var step := ColumnStepOf(op, other, types, schema, table);
      ColumnRunSucceeds(op, init, other, types, schema, table);
      EnumeratePrefix(items, n);
      assert forall i :: 0 <= i < n ==> init[i] == items[i];
      var before := ColumnRun(op, init, other, types, schema, table);
      if before.result.Ok? {
        assert step(before.result.value, (n, items[n])) == ColumnStep(op, other, types, schema, table, before.result.value, (n, items[n]));
      }
    }
  }

  /** The value of a lookup that succeeded, `None` otherwise. */
  function ValueOr(r: Result<Obj>): Obj
  {
    if r.Ok? then r.value else Null
  }

  /** The reference for what a column loop records: each absent item with
      the type at its position, in item order. */
  function Found(items: seq<Obj>, other: Obj, types: Obj): (r: seq<ColumnChange>)
    ensures |r| == |Absent(items, other)|
  {
    var ab := Absent(items, other);
    AbsentExact(items, other);
    seq(|ab|, k requires 0 <= k < |ab| => ColumnChange(items[ab[k]], ValueOr(Index(types, ab[k]))))
  }

  /** One more item: it is found when the other side does not hold it. */
  lemma FoundSnoc(items: seq<Obj>, other: Obj, types: Obj)
    requires |items| > 0
    ensures var n := |items| - 1;
      Found(items, other, types)
      == Found(items[..n], other, types)
         + if In(items[n], other) == Ok(false) then [ColumnChange(items[n], ValueOr(Index(types, n)))] else []
  {
    var n := |items| - 1;
    var init := items[..n];
    var ab := Absent(items, other);
    var ab0 := Absent(init, other);
    AbsentExact(init, other);
    assert forall k :: 0 <= k < |ab0| ==> ab[k] == ab0[k] && init[ab0[k]] == items[ab0[k]];
  }

  /** One more change appends its statement. */
  lemma ColumnStatementsAppend(op: ColumnOp, schema: string, table: string, cs: seq<ColumnChange>, c: ColumnChange)
    ensures ColumnStatements(op, schema, table, cs + [c])
         == ColumnStatements(op, schema, table, cs) + [ColumnStatement(op, schema, table, c)]
  {
  }

  /** When a column loop finishes, it has recorded exactly the absent items
      with their types, in item order, and appended one statement for
      each, in the same order. */
  lemma {:induction false} ColumnRunFound(op: ColumnOp, items: seq<Obj>, other: Obj, types: Obj, schema: string, table: string)
    requires ColumnRun(op, items, other, types, schema, table).result.Ok?
    ensures ColumnRun(op, items, other, types, schema, table).result.value == Found(items, other, types)
    ensures ColumnRun(op, items, other, types, schema, table).appended
         == ColumnStatements(op, schema, table, Found(items, other, types))
  {
    if |items| > 0 {
      var n := |items| - 1;
      var init := items[..n];
      var en := Enumerate(items);
      EnumeratePrefix(items, n);
      assert en[..n + 1] == en;
      var before := ColumnRun(op, init, other, types, schema, table);
      assert before == Run([], en[..n], ColumnStepOf(op, other, types, schema, table));
      RunPrefixOk([], en, ColumnStepOf(op, other, types, schema, table), n);
      ColumnRunFound(op, init, other, types, schema, table);
      ColumnRunNext(op, other, types, schema, table, en, n, []);
      FoundSnoc(items, other, types);
      var found := Found(init, other, types);
      if In(items[n], other) == Ok(false) {
        ColumnStatementsAppend(op, schema, table, found, ColumnChange(items[n], ValueOr(Index(types, n))));
      } else {
        assert found + [] == found;
      }
    } else {
      assert ColumnStatements(op, schema, table, []) == [];
    }
  }

  /** `_compare_columns` returns the absent columns of each side, with
      their types on that side, in list order (nothing for a name both
      sides hold, whatever its types), or `None` when there are none; it
      appends one `ADD COLUMNS` per new column, then one `DROP COLUMN` per
      dropped column. */
  lemma ColumnsCompared(cols1: Obj, cols2: Obj, types1: Obj, types2: Obj, schema: string, table: string)
    requires ColumnsOutcome(cols1, cols2, types1, types2, schema, table).result.Ok?
    ensures Items(cols1).Ok? && Items(cols2).Ok?
    ensures var o := ColumnsOutcome(cols1, cols2, types1, types2, schema, table);
      var added := Found(Items(cols2).value, cols1, types2);
      var dropped := Found(Items(cols1).value, cols2, types1);
      o.result.value == (if added == [] && dropped == [] then None else Some(ColumnsDiff(added, dropped)))
      && o.appended == ColumnStatements(Adding, schema, table, added) + ColumnStatements(Dropping, schema, table, dropped)
  {
    var items2 := Items(cols2).value;
    ColumnRunFound(Adding, items2, cols1, types2, schema, table);
    var items1 := Items(cols1).value;
    ColumnRunFound(Dropping, items1, cols2, types1, schema, table);
  }

  /** Comparing a column list with itself finds nothing and appends
      nothing, whatever the types say. */
  lemma ColumnsSelf(cols: Obj, types: Obj, schema: string, table: string)
    requires WellFormed(cols)
    ensures ColumnsOutcome(cols, cols, types, types, schema, table).appended == []
    ensures ColumnsOutcome(cols, cols, types, types, schema, table).result.Ok? ==>
      ColumnsOutcome(cols, cols, types, types, schema, table).result == Ok(None)
  {
    if Items(cols).Ok? {
      var items := Items(cols).value;
      ItemsIn(cols);
      forall op: ColumnOp
        ensures ColumnRun(op, items, cols, types, schema, table).appended == []
        ensures ColumnRun(op, items, cols, types, schema, table).result.Ok? ==>
          ColumnRun(op, items, cols, types, schema, table).result.value == []
      {
        var en := Enumerate(items);
        var step := ColumnStepOf(op, cols, types, schema, table);
        forall k | 0 <= k < |en| ensures step([], en[k]) == Outcome(Ok([]), []) {
          assert en[k] == (k, items[k]);
        }
        RunQuiet([], en, step);
      }
    }
  }

  // ---------------------------------------------------------------------
  // Attributes: `_compare_attributes`

  /** The attributes compared by value: a table's `serdes`, `location`,
      `primary_key` and `bucket`, and a view's `query`. */
  datatype Dimension = SerdesDim | LocationDim | PrimaryKeyDim | BucketDim | QueryDim

  function DimensionKey(dim: Dimension): string
  {
    match dim
    case SerdesDim => "serdes"
    case LocationDim => "location"
    case PrimaryKeyDim => "primary_key"
    case BucketDim => "bucket"
    case QueryDim => "query"
  }

  /** The value reported for a side that lacks the key. */
  function DimensionDefault(dim: Dimension): Obj
  {
    match dim
    case SerdesDim => List([])
    case LocationDim => Str("")
    case PrimaryKeyDim => List([])
    case BucketDim => Dict([])
    case QueryDim => Str("")
  }

  /** The statements each dimension emits. */
  predicate Belongs(st: Statement, dim: Dimension)
  {
    match dim
    case SerdesDim => st.SetSerde?
    case LocationDim => st.SetLocation?
    case PrimaryKeyDim => st.DropPrimaryKey? || st.AddPrimaryKey?
    case BucketDim => st.ClusterBy?
    case QueryDim => st.ReplaceView?
  }

  /** `obj1.get(key) != obj2.get(key)`; when they differ, the change with
      each side's value, or the default for a side without the key. */
  function Differs(dim: Dimension, obj1: Obj, obj2: Obj): Result<Option<Change>>
  {
    if !obj1.Dict? || !obj2.Dict? then Err(AttributeError("get"))
    else
      var key := DimensionKey(dim);
      if PyEq(Field(obj1.entries, key), Field(obj2.entries, key)) then Ok(None)
      else
        var default := DimensionDefault(dim);
        Ok(Some(Change(FieldOr(obj1.entries, key, default), FieldOr(obj2.entries, key, default))))
  }

  function SerdeStatement(obj2: Obj, schema: string, name: string): Result<Statement>
  {
    var serdes :- GetItem(obj2, "serdes");
    var first :- Index(serdes, 0);
    Ok(SetSerde(schema, name, first))
  }

  function LocationStatement(obj2: Obj, schema: string, name: string): Result<Statement>
  {
    var location :- GetItem(obj2, "location");
    Ok(SetLocation(schema, name, location))
  }

  /** `', '.join(obj2['primary_key'])`. */
  function PrimaryKeyColumns(obj2: Obj): Result<string>
  {
    var primaryKey :- GetItem(obj2, "primary_key");
    JoinObj(", ", primaryKey)
  }

  function ClusterStatement(obj2: Obj, schema: string, name: string): Result<Statement>
  {
    var bucket :- GetItem(obj2, "bucket");
    var bucketColumns :- GetItem(bucket, "bucket_columns");
    var columns :- JoinObj(", ", bucketColumns);
    var buckets :- GetItem(bucket, "num_buckets");
    Ok(ClusterBy(schema, name, columns, buckets))
  }

  function QueryStatement(obj2: Obj, schema: string, name: string): Result<Statement>
  {
    var query :- GetItem(obj2, "query");
    Ok(ReplaceView(schema, name, query))
  }

  /** Appending one statement that may fail to build. */
  function Single(r: Result<Statement>): Outcome<()>
  {
    if r.Ok? then Outcome(Ok(()), [r.value]) else Outcome(Err(r.error), [])
  }

  /** The statements for a differing dimension, built from the second
      object. The primary key's `DROP` is appended before its `ADD` is
      built, so it stays even when building the `ADD` raises. */
  function DimensionStatements(dim: Dimension, obj2: Obj, schema: string, name: string): Outcome<()>
  {
    match dim
    case SerdesDim => Single(SerdeStatement(obj2, schema, name))
    case LocationDim => Single(LocationStatement(obj2, schema, name))
    case PrimaryKeyDim =>
      var drop := DropPrimaryKey(schema, name);
      (match PrimaryKeyColumns(obj2)
       case Err(e) => Outcome(Err(e), [drop])
       case Ok(columns) => Outcome(Ok(()), [drop, AddPrimaryKey(schema, name, columns)]))
    case BucketDim => Single(ClusterStatement(obj2, schema, name))
    case QueryDim => Single(QueryStatement(obj2, schema, name))
  }

  /** One value-compared dimension, switched on or off. */
  function ChangeDimension(dim: Dimension, on: bool, obj1: Obj, obj2: Obj, schema: string, name: string)
    : Outcome<Option<Change>>
  {
    if !on then Outcome(Ok(None), [])
    else
      match Differs(dim, obj1, obj2)
      case Err(e) => Outcome(Err(e), [])
      case Ok(None) => Outcome(Ok(None), [])
      case Ok(Some(change)) =>
        var st := DimensionStatements(dim, obj2, schema, name);
        Outcome(if st.result.Ok? then Ok(Some(change)) else Err(st.result.error), st.appended)
  }

  /** A dimension that is switched off finds nothing and appends nothing;
      one that is on finds a change exactly when the two values differ
      (Python `!=`), appends nothing when they agree, two statements
      (`DROP PRIMARY KEY` then `ADD PRIMARY KEY`) for a primary key that
      differs and one for any other differing dimension; every statement
      it appends is its own. */
  lemma DimensionCompared(dim: Dimension, on: bool, obj1: Obj, obj2: Obj, schema: string, name: string)
    ensures var o := ChangeDimension(dim, on, obj1, obj2, schema, name);
      (!on ==> o == Outcome(Ok(None), []))
      && (on && o.result.Ok? ==>
           obj1.Dict? && obj2.Dict? &&
           (o.result.value.Some? <==>
             !PyEq(Field(obj1.entries, DimensionKey(dim)), Field(obj2.entries, DimensionKey(dim)))))
      && (o.result == Ok(None) ==> o.appended == [])
      && (o.result.Ok? && o.result.value.Some? && dim == PrimaryKeyDim ==>
           o.appended == [DropPrimaryKey(schema, name), AddPrimaryKey(schema, name, PrimaryKeyColumns(obj2).value)])
      && (o.result.Ok? && o.result.value.Some? && dim != PrimaryKeyDim ==>
           |o.appended| == 1)
      && (forall st :: st in o.appended ==> Belongs(st, dim))
  {
  }

  /** A dimension compared on one object against itself finds nothing and
      appends nothing. */
  lemma DimensionSelf(dim: Dimension, on: bool, obj: Obj, schema: string, name: string)
    requires WellFormed(obj)
    ensures ChangeDimension(dim, on, obj, obj, schema, name).appended == []
    ensures ChangeDimension(dim, on, obj, obj, schema, name).result.Ok? ==>
      ChangeDimension(dim, on, obj, obj, schema, name).result == Ok(None)
  {
    if on && obj.Dict? {
      var key := DimensionKey(dim);
      if HasKey(obj.entries, key) {
        LookupWellFormed(obj.entries, key);
      }
      PyEqRefl(Field(obj.entries, key));
    }
  }

  /** `'columns' in obj1 and 'columns' in obj2`, then the arguments
      `_compare_columns` is called with. */
  function ColumnInputs(obj1: Obj, obj2: Obj): Result<Option<(Obj, Obj, Obj, Obj)>>
  {
    var in1 :- In(Str("columns"), obj1);
    if !in1 then Ok(None)
    else
      var in2 :- In(Str("columns"), obj2);
      if !in2 then Ok(None)
      else
        var cols1 :- GetItem(obj1, "columns");
        var cols2 :- GetItem(obj2, "columns");
        var types1 :- GetOr(obj1, "data_types", List([]));
        var types2 :- GetOr(obj2, "data_types", List([]));
        Ok(Some((cols1, cols2, types1, types2)))
  }

  /** The column dimension of a table, switched on or off. */
  function ColumnsDimension(on: bool, obj1: Obj, obj2: Obj, schema: string, name: string)
    : Outcome<Option<ColumnsDiff>>
  {
    if !on then Outcome(Ok(None), [])
    else
      match ColumnInputs(obj1, obj2)
      case Err(e) => Outcome(Err(e), [])
      case Ok(None) => Outcome(Ok(None), [])
      case Ok(Some(inputs)) => ColumnsOutcome(inputs.0, inputs.1, inputs.2, inputs.3, schema, name)
  }

  /** The column dimension only appends column statements. */
  lemma ColumnsDimensionOwn(on: bool, obj1: Obj, obj2: Obj, schema: string, name: string)
    ensures !on ==> ColumnsDimension(on, obj1, obj2, schema, name) == Outcome(Ok(None), [])
    ensures forall st :: st in ColumnsDimension(on, obj1, obj2, schema, name).appended ==>
      st.AddColumn? || st.DropColumn?
  {
    if on && ColumnInputs(obj1, obj2).Ok? && ColumnInputs(obj1, obj2).value.Some? {
      var inputs := ColumnInputs(obj1, obj2).value.value;
      ColumnsOwn(inputs.0, inputs.1, inputs.2, inputs.3, schema, name);
    }
  }

  lemma ColumnsOwn(cols1: Obj, cols2: Obj, types1: Obj, types2: Obj, schema: string, table: string)
    ensures forall st :: st in ColumnsOutcome(cols1, cols2, types1, types2, schema, table).appended ==>
      st.AddColumn? || st.DropColumn?
  {
    if Items(cols2).Ok? {
      ColumnRunOwn(Adding, Items(cols2).value, cols1, types2, schema, table);
      if Items(cols1).Ok? {
        ColumnRunOwn(Dropping, Items(cols1).value, cols2, types1, schema, table);
      }
    }
  }

  lemma {:induction false} ColumnRunOwn(op: ColumnOp, items: seq<Obj>, other: Obj, types: Obj, schema: string, table: string)
    ensures forall st :: st in ColumnRun(op, items, other, types, schema, table).appended ==>
      st.AddColumn? || st.DropColumn?
  {
    if |items| > 0 {
      var n := |items| - 1;
      var init := items[..n];
      var step := ColumnStepOf(op, other, types, schema, table);
      ColumnRunOwn(op, init, other, types, schema, table);
      EnumeratePrefix(items, n);
      var before := ColumnRun(op, init, other, types, schema, table);
      if before.result.Ok? {
        assert step(before.result.value, (n, items[n])) == ColumnStep(op, other, types, schema, table, before.result.value, (n, items[n]));
      }
    }
  }

  /** The column dimension on one table against itself appends nothing and
      finds nothing. */
  lemma ColumnsDimensionSelf(on: bool, obj: Obj, schema: string, name: string)
    requires WellFormed(obj)
    ensures ColumnsDimension(on, obj, obj, schema, name).appended == []
    ensures ColumnsDimension(on, obj, obj, schema, name).result.Ok? ==>
      ColumnsDimension(on, obj, obj, schema, name).result == Ok(None)
  {
    if on && ColumnInputs(obj, obj).Ok? && ColumnInputs(obj, obj).value.Some? {
      var inputs := ColumnInputs(obj, obj).value.value;
      assert obj.Dict? && inputs.0 == inputs.1 && inputs.2 == inputs.3;
      LookupWellFormed(obj.entries, "columns");
      ColumnsSelf(inputs.0, inputs.2, schema, name);
    }
  }

  /** The attributes of a table from the outcomes of its dimensions, taken
      in the order columns, serdes, location, primary key, bucket: the first
      exception ends the comparison, keeping the statements appended
      before it. */
  function AttributesOf(c: Outcome<Option<ColumnsDiff>>, s: Outcome<Option<Change>>, l: Outcome<Option<Change>>,
                        p: Outcome<Option<Change>>, b: Outcome<Option<Change>>): Outcome<AttributesDiff>
  {
    var sl := Both(s, l);
    var pb := Both(p, b);
    if c.result.Err? then Outcome(Err(c.result.error), c.appended)
    else if sl.result.Err? then Outcome(Err(sl.result.error), c.appended + sl.appended)
    else
      var appended := c.appended + sl.appended + pb.appended;
      if pb.result.Err? then Outcome(Err(pb.result.error), appended)
      else
        Outcome(Ok(AttributesDiff(c.result.value, sl.result.value.0, sl.result.value.1,
                                  pb.result.value.0, pb.result.value.1, None)),
                appended)
  }

  /** Every statement comes from one of the dimensions, and on success
      each entry is its dimension's result. */
  lemma AttributesOfParts(c: Outcome<Option<ColumnsDiff>>, s: Outcome<Option<Change>>, l: Outcome<Option<Change>>,
                          p: Outcome<Option<Change>>, b: Outcome<Option<Change>>)
    ensures var o := AttributesOf(c, s, l, p, b);
      forall st :: st in o.appended ==>
        st in c.appended || st in s.appended || st in l.appended || st in p.appended || st in b.appended
    ensures var o := AttributesOf(c, s, l, p, b);
      o.result.Ok? ==>
        c.result == Ok(o.result.value.columns) && s.result == Ok(o.result.value.serdes)
        && l.result == Ok(o.result.value.location) && p.result == Ok(o.result.value.primaryKey)
        && b.result == Ok(o.result.value.bucket) && o.result.value.query == None
  {
  }

  function TableAttributes(t: Config.Toggles, obj1: Obj, obj2: Obj, schema: string, name: string)
    : Outcome<AttributesDiff>
  {
    AttributesOf(ColumnsDimension(t.columns, obj1, obj2, schema, name),
                 ChangeDimension(SerdesDim, t.serdes, obj1, obj2, schema, name),
                 ChangeDimension(LocationDim, t.location, obj1, obj2, schema, name),
                 ChangeDimension(PrimaryKeyDim, t.primaryKey, obj1, obj2, schema, name),
                 ChangeDimension(BucketDim, t.bucket, obj1, obj2, schema, name))
  }

  /** `_compare_attributes`: tables compare their table dimensions, views
      their query (with no switch), functions nothing. */
  function AttributesOutcome(t: Config.Toggles, kind: ObjectKind, obj1: Obj, obj2: Obj, schema: string, name: string)
    : Outcome<AttributesDiff>
  {
    match kind
    case Tables => TableAttributes(t, obj1, obj2, schema, name)
    case Views =>
      var q := ChangeDimension(QueryDim, true, obj1, obj2, schema, name);
      Outcome(if q.result.Ok? then Ok(NoAttributes.(query := q.result.value)) else Err(q.result.error), q.appended)
    case Udfs => Outcome(Ok(NoAttributes), [])
  }

  /** The switch of a value-compared table dimension. */
  function Switch(t: Config.Toggles, dim: Dimension): bool
  {
    match dim
    case SerdesDim => t.serdes
    case LocationDim => t.location
    case PrimaryKeyDim => t.primaryKey
    case BucketDim => t.bucket
    case QueryDim => true
  }

  /** The entry of the differences for a value-compared dimension. */
  function Reported(d: AttributesDiff, dim: Dimension): Option<Change>
  {
    match dim
    case SerdesDim => d.serdes
    case LocationDim => d.location
    case PrimaryKeyDim => d.primaryKey
    case BucketDim => d.bucket
    case QueryDim => d.query
  }

  /** A dimension switched off is an empty outcome, and a dimension only
      ever appends its own statements. */
  lemma DimensionOwn(dim: Dimension, on: bool, obj1: Obj, obj2: Obj, schema: string, name: string)
    ensures !on ==> ChangeDimension(dim, on, obj1, obj2, schema, name) == Outcome(Ok(None), [])
    ensures forall st :: st in ChangeDimension(dim, on, obj1, obj2, schema, name).appended ==> Belongs(st, dim)
  {
  }

  /** `AttributesOf` over the outcomes of the four value-compared table
      dimensions, given as one function of the dimension. */
  lemma DimensionsOfParts(c: Outcome<Option<ColumnsDiff>>, dims: Dimension -> Outcome<Option<Change>>)
    ensures var o := AttributesOf(c, dims(SerdesDim), dims(LocationDim), dims(PrimaryKeyDim), dims(BucketDim));
      forall st :: st in o.appended ==>
        st in c.appended || exists dim :: dim != QueryDim && st in dims(dim).appended
    ensures var o := AttributesOf(c, dims(SerdesDim), dims(LocationDim), dims(PrimaryKeyDim), dims(BucketDim));
      o.result.Ok? ==>
        c.result == Ok(o.result.value.columns) && o.result.value.query == None
        && forall dim :: dim != QueryDim ==> dims(dim).result == Ok(Reported(o.result.value, dim))
  {
    var o := AttributesOf(c, dims(SerdesDim), dims(LocationDim), dims(PrimaryKeyDim), dims(BucketDim));
    AttributesOfParts(c, dims(SerdesDim), dims(LocationDim), dims(PrimaryKeyDim), dims(BucketDim));
    forall st | st in o.appended && st !in c.appended
      ensures exists dim :: dim != QueryDim && st in dims(dim).appended
    {
      if st in dims(SerdesDim).appended {
      } else if st in dims(LocationDim).appended {
      } else if st in dims(PrimaryKeyDim).appended {
      } else {
        assert st in dims(BucketDim).appended;
      }
    }
  }

  /** The outcome of a table's attribute comparison is made of the outcomes
      of its five dimensions. */
  lemma TableAttributesParts(t: Config.Toggles, obj1: Obj, obj2: Obj, schema: string, name: string)
    ensures var o := TableAttributes(t, obj1, obj2, schema, name);
      forall st :: st in o.appended ==>
        st in ColumnsDimension(t.columns, obj1, obj2, schema, name).appended
        || exists dim :: dim != QueryDim && st in ChangeDimension(dim, Switch(t, dim), obj1, obj2, schema, name).appended
    ensures var o := TableAttributes(t, obj1, obj2, schema, name);
      o.result.Ok? ==>
        ColumnsDimension(t.columns, obj1, obj2, schema, name).result == Ok(o.result.value.columns)
        && o.result.value.query == None
        && forall dim :: dim != QueryDim ==>
             ChangeDimension(dim, Switch(t, dim), obj1, obj2, schema, name).result == Ok(Reported(o.result.value, dim))
  {
    var dims := (dim: Dimension) => ChangeDimension(dim, Switch(t, dim), obj1, obj2, schema, name);
    DimensionsOfParts(ColumnsDimension(t.columns, obj1, obj2, schema, name), dims);
  }

  /** A table dimension whose switch is off reports no difference and
      appends none of its statements. */
  lemma DimensionSilent(t: Config.Toggles, dim: Dimension, obj1: Obj, obj2: Obj, schema: string, name: string)
    requires dim != QueryDim && !Switch(t, dim)
    ensures var o := TableAttributes(t, obj1, obj2, schema, name);
      (o.result.Ok? ==> Reported(o.result.value, dim).None?)
      && forall st :: st in o.appended ==> !Belongs(st, dim)
  {
    TableAttributesParts(t, obj1, obj2, schema, name);
    DimensionOwn(dim, false, obj1, obj2, schema, name);
    ColumnsDimensionOwn(t.columns, obj1, obj2, schema, name);
    forall d: Dimension {
      DimensionOwn(d, Switch(t, d), obj1, obj2, schema, name);
    }
  }

  /** With the columns switch off, no column difference is reported and no
      column is added or dropped. */
  lemma ColumnsSilent(t: Config.Toggles, obj1: Obj, obj2: Obj, schema: string, name: string)
    requires !t.columns
    ensures var o := TableAttributes(t, obj1, obj2, schema, name);
      (o.result.Ok? ==> o.result.value.columns.None?)
      && forall st :: st in o.appended ==> !st.AddColumn? && !st.DropColumn?
  {
    TableAttributesParts(t, obj1, obj2, schema, name);
    ColumnsDimensionOwn(t.columns, obj1, obj2, schema, name);
    forall d: Dimension {
      DimensionOwn(d, Switch(t, d), obj1, obj2, schema, name);
    }
  }

  /** Every statement an attribute comparison appends alters an existing
      object. */
  lemma AttributesOwn(t: Config.Toggles, kind: ObjectKind, obj1: Obj, obj2: Obj, schema: string, name: string)
    ensures forall st :: st in AttributesOutcome(t, kind, obj1, obj2, schema, name).appended ==>
      st.IsAlteration() && st.Kind() == kind
  {
    match kind
    case Tables =>
      TableAttributesOwn(t, obj1, obj2, schema, name);
    case Views =>
      DimensionOwn(QueryDim, true, obj1, obj2, schema, name);
    case Udfs =>
  }

  /** A statement of a table dimension alters a table. */
  lemma BelongsAlters(st: Statement, dim: Dimension)
    requires dim != QueryDim && Belongs(st, dim)
    ensures st.IsAlteration() && st.Kind() == Tables
  {
  }

  /** When the columns outcome appends only column statements and each
      table dimension only its own, `AttributesOf` appends only table
      alterations. */
  lemma DimensionsOwnAlters(c: Outcome<Option<ColumnsDiff>>, dims: Dimension -> Outcome<Option<Change>>)
    requires forall st :: st in c.appended ==> st.AddColumn? || st.DropColumn?
    requires forall dim, st :: dim != QueryDim && st in dims(dim).appended ==> Belongs(st, dim)
    ensures forall st :: st in AttributesOf(c, dims(SerdesDim), dims(LocationDim), dims(PrimaryKeyDim), dims(BucketDim)).appended ==>
      st.IsAlteration() && st.Kind() == Tables
  {
    DimensionsOfParts(c, dims);
    forall st | st in AttributesOf(c, dims(SerdesDim), dims(LocationDim), dims(PrimaryKeyDim), dims(BucketDim)).appended
      ensures st.IsAlteration() && st.Kind() == Tables
    {
      if st !in c.appended {
        var dim :| dim != QueryDim && st in dims(dim).appended;
        BelongsAlters(st, dim);
      }
    }
  }

  lemma TableAttributesOwn(t: Config.Toggles, obj1: Obj, obj2: Obj, schema: string, name: string)
    ensures forall st :: st in TableAttributes(t, obj1, obj2, schema, name).appended ==>
      st.IsAlteration() && st.Kind() == Tables
  {
    var dims := (dim: Dimension) => ChangeDimension(dim, Switch(t, dim), obj1, obj2, schema, name);
    ColumnsDimensionOwn(t.columns, obj1, obj2, schema, name);
    forall dim {
      DimensionOwn(dim, Switch(t, dim), obj1, obj2, schema, name);
    }
    DimensionsOwnAlters(ColumnsDimension(t.columns, obj1, obj2, schema, name), dims);
  }

  /** A view's query is compared whatever the switches say. */
  lemma ViewQueryUnswitched(t: Config.Toggles, u: Config.Toggles, obj1: Obj, obj2: Obj, schema: string, name: string)
    ensures AttributesOutcome(t, Views, obj1, obj2, schema, name) == AttributesOutcome(u, Views, obj1, obj2, schema, name)
    ensures var o := AttributesOutcome(t, Views, obj1, obj2, schema, name);
      o.result.Ok? ==> (o.result.value.query.Some? <==> !PyEq(Field(obj1.entries, "query"), Field(obj2.entries, "query")))
  {
    DimensionCompared(QueryDim, true, obj1, obj2, schema, name);
  }

  /** The schema builders keep a view's text under `definition`, so two
      views that lack a `query` key never differ. */
  lemma QueryKeyAbsent(t: Config.Toggles, obj1: Obj, obj2: Obj, schema: string, name: string)
    requires obj1.Dict? && obj2.Dict? && !HasKey(obj1.entries, "query") && !HasKey(obj2.entries, "query")
    ensures AttributesOutcome(t, Views, obj1, obj2, schema, name) == Outcome(Ok(NoAttributes), [])
  {
    assert Field(obj1.entries, "query") == Null == Field(obj2.entries, "query");
  }

  /** Comparing an object's attributes with themselves finds nothing and
      appends nothing. */
  lemma AttributesSelf(t: Config.Toggles, kind: ObjectKind, obj: Obj, schema: string, name: string)
    requires WellFormed(obj)
    ensures AttributesOutcome(t, kind, obj, obj, schema, name).appended == []
    ensures AttributesOutcome(t, kind, obj, obj, schema, name).result.Ok? ==>
      AttributesOutcome(t, kind, obj, obj, schema, name).result == Ok(NoAttributes)
  {
    ColumnsDimensionSelf(t.columns, obj, schema, name);
    DimensionSelf(SerdesDim, t.serdes, obj, schema, name);
    DimensionSelf(LocationDim, t.location, obj, schema, name);
    DimensionSelf(PrimaryKeyDim, t.primaryKey, obj, schema, name);
    DimensionSelf(BucketDim, t.bucket, obj, schema, name);
    DimensionSelf(QueryDim, true, obj, schema, name);
  }

  // ---------------------------------------------------------------------
  // Creation statements: `_generate_create_table|view|udf`

  /** `f"{col} {dtype}"` for the pairs of `zip(column_list, data_types)`,
      which stops at the shorter of the two. */
  function ColumnDefinitions(names: seq<Obj>, types: seq<Obj>): (r: seq<string>)
    ensures |r| == if |names| <= |types| then |names| else |types|
  {
    var n := if |names| <= |types| then |names| else |types|;
    seq(n, k requires 0 <= k < n => Show(names[k]) + " " + Show(types[k]))
  }

  /** `PRIMARY KEY (...)`, raising as `', '.join(...)` does. */
  function PrimaryKeyClause(obj: Obj): Result<string>
  {
    var columns :- PrimaryKeyColumns(obj);
    Ok("PRIMARY KEY (" + columns + ")")
  }

  /** `CLUSTERED BY (...) INTO n BUCKETS`, from the same lookups as the
      bucket's `ALTER TABLE`. */
  function BucketClause(obj: Obj, schema: string, table: string): Result<string>
  {
    var cluster :- ClusterStatement(obj, schema, table);
    Ok("CLUSTERED BY (" + cluster.columns + ") INTO " + Show(cluster.buckets) + " BUCKETS")
  }

  function LocationClause(obj: Obj, schema: string, table: string): Result<string>
  {
    var location :- LocationStatement(obj, schema, table);
    Ok("LOCATION '" + Show(location.path) + "'")
  }

  function SerdeClause(obj: Obj, schema: string, table: string): Result<string>
  {
    var serde :- SerdeStatement(obj, schema, table);
    Ok("SERDE '" + Show(serde.serde) + "'")
  }

  /** An optional clause: empty when the table lacks the key. */
  function Clause(obj: Obj, key: string, clause: Result<string>): Result<string>
    requires obj.Dict?
  {
    if HasKey(obj.entries, key) then clause else Ok("")
  }

  /** `_generate_create_table`: the columns, then the primary key, bucket,
      location and serde clauses, in that order of evaluation. */
  function CreateTableStatement(schema: string, table: string, obj: Obj): Result<Statement>
  {
    var columnList :- GetItem(obj, "column_list");
    var dataTypes :- GetItem(obj, "data_types");
    var names :- Items(columnList);
    var types :- Items(dataTypes);
    var primaryKey :- Clause(obj, "primary_key", PrimaryKeyClause(obj));
    var bucket :- Clause(obj, "bucket", BucketClause(obj, schema, table));
    var location :- Clause(obj, "location", LocationClause(obj, schema, table));
    var serdes :- Clause(obj, "serdes", SerdeClause(obj, schema, table));
    Ok(CreateTable(schema, table, Join(ColumnDefinitions(names, types), ", "), primaryKey, bucket, serdes, location))
  }

  /** The creation statement for an object of the second schema that the
      first lacks. */
  function CreateStatement(kind: ObjectKind, schema: string, name: string, obj: Obj): (r: Result<Statement>)
    ensures r.Ok? ==> r.value.IsCreation() && r.value.Kind() == kind && r.value.schema == schema
  {
    match kind
    case Tables => CreateTableStatement(schema, name, obj)
    case Views =>
      var definition :- GetItem(obj, "definition");
      Ok(CreateView(schema, name, definition))
    case Udfs =>
      var returnType :- GetItem(obj, "return_type");
      var arguments :- GetItem(obj, "arguments");
      var argument :- Index(arguments, 0);
      Ok(CreateFunction(schema, name, returnType, argument))
  }

  /** A table is created with one column definition per pair of
      `column_list` and `data_types`; each optional clause is empty exactly
      when the table lacks its key; a table without `column_list` or
      `data_types` raises `KeyError`. */
  lemma CreateTableShape(schema: string, table: string, obj: Obj)
    ensures var r := CreateTableStatement(schema, table, obj);
      r.Ok? ==>
        obj.Dict? && Items(Field(obj.entries, "column_list")).Ok? && Items(Field(obj.entries, "data_types")).Ok?
        && r.value.table == table
        && r.value.columns == Join(ColumnDefinitions(Items(Field(obj.entries, "column_list")).value,
                                                     Items(Field(obj.entries, "data_types")).value), ", ")
        && (r.value.primaryKey == "" <==> !HasKey(obj.entries, "primary_key"))
        && (r.value.bucket == "" <==> !HasKey(obj.entries, "bucket"))
        && (r.value.location == "" <==> !HasKey(obj.entries, "location"))
        && (r.value.serdes == "" <==> !HasKey(obj.entries, "serdes"))
    ensures obj.Dict? && !HasKey(obj.entries, "column_list") ==>
      CreateTableStatement(schema, table, obj) == Err(KeyError("column_list"))
    ensures obj.Dict? && HasKey(obj.entries, "column_list") && !HasKey(obj.entries, "data_types") ==>
      CreateTableStatement(schema, table, obj) == Err(KeyError("data_types"))
  {
  }

  /** A view is created from its `definition`, a function from its
      `return_type` and first argument. */
  lemma CreateShape(kind: ObjectKind, schema: string, name: string, obj: Obj)
    ensures var r := CreateStatement(kind, schema, name, obj);
      (kind == Views ==>
         (r.Ok? <==> obj.Dict? && HasKey(obj.entries, "definition"))
         && (r.Ok? ==> r.value == CreateView(schema, name, Field(obj.entries, "definition"))))
      && (kind == Udfs && r.Ok? ==>
         obj.Dict? && r.value == CreateFunction(schema, name, Field(obj.entries, "return_type"),
                                                Index(Field(obj.entries, "arguments"), 0).value))
      && (kind == Tables ==> r == CreateTableStatement(schema, name, obj))
  {
  }

  // ---------------------------------------------------------------------
  // Objects of one kind: `_compare_objects`

  /** The first loop: an added object's name and its creation statement. */
  function AddStep(kind: ObjectKind, schema: string, d2: Entries, added: seq<string>, name: string)
    : Outcome<seq<string>>
  {
    Collected(added, name, CreateStatement(kind, schema, name, Field(d2, name)))
  }

  /** A loop body that records `x` and appends the statement built for it,
      or raises what building it raised. */
  function Collected<X>(done: seq<X>, x: X, st: Result<Statement>): Outcome<seq<X>>
  {
    if st.Err? then Outcome(Err(st.error), []) else Outcome(Ok(done + [x]), [st.value])
  }

  /** A loop of `Collected` bodies succeeds when every statement can be
      built, and then records every item and appends their statements in
      order; whatever it appends is a statement built for one of them. */
  lemma {:induction false} RunCollects<X>(xs: seq<X>, f: X -> Result<Statement>, step: (seq<X>, X) -> Outcome<seq<X>>)
    requires forall done: seq<X>, x: X :: step(done, x) == Collected(done, x, f(x))
    ensures var o := Run([], xs, step);
      (o.result.Ok? <==> forall k :: 0 <= k < |xs| ==> f(xs[k]).Ok?)
      && (o.result.Ok? ==>
            o.result.value == xs && |o.appended| == |xs|
            && forall k :: 0 <= k < |xs| ==> f(xs[k]) == Ok(o.appended[k]))
      && (forall st :: st in o.appended ==> exists k :: 0 <= k < |xs| && f(xs[k]) == Ok(st))
  {
    if |xs| > 0 {
      var init := xs[..|xs| - 1];
      var last := xs[|xs| - 1];
      RunCollects(init, f, step);
      assert forall k :: 0 <= k < |init| ==> init[k] == xs[k];
      var before := Run([], init, step);
      if before.result.Ok? {
        assert step(before.result.value, last) == Collected(init, last, f(last));
        assert init + [last] == xs;
      }
    }
  }

  /** A loop body that compares one name: it raises what the comparison
      raised, records the name with its result unless that result is
      `none`, and keeps the comparison's statements. */
  function Kept<V(==)>(found: seq<(string, V)>, name: string, o: Outcome<V>, none: V): Outcome<seq<(string, V)>>
  {
    if o.result.Err? then Outcome(Err(o.result.error), o.appended)
    else if o.result.value == none then Outcome(Ok(found), o.appended)
    else Outcome(Ok(found + [(name, o.result.value)]), o.appended)
  }

  /** A loop of `Kept` bodies succeeds exactly when every comparison
      does. */
  lemma {:induction false} RunKeepsOk<V>(names: seq<string>, f: string -> Outcome<V>, none: V,
                                         step: (seq<(string, V)>, string) -> Outcome<seq<(string, V)>>)
    requires forall found: seq<(string, V)>, name: string :: step(found, name) == Kept(found, name, f(name), none)
    ensures Run([], names, step).result.Ok? <==> forall k :: 0 <= k < |names| ==> f(names[k]).result.Ok?
  {
    if |names| > 0 {
      var init := names[..|names| - 1];
      var last := names[|names| - 1];
      RunKeepsOk(init, f, none, step);
      assert forall k :: 0 <= k < |init| ==> init[k] == names[k];
      var before := Run([], init, step);
      if before.result.Err? {
        var k :| 0 <= k < |init| && !f(init[k]).result.Ok?;
        assert !f(names[k]).result.Ok?;
      } else {
        assert step(before.result.value, last) == Kept(before.result.value, last, f(last), none);
      }
    }
  }

  /** A loop of `Kept` bodies that succeeds records exactly the names
      whose result is not `none`, each with that result. */
  lemma {:induction false} RunKeeps<V>(names: seq<string>, f: string -> Outcome<V>, none: V,
                                       step: (seq<(string, V)>, string) -> Outcome<seq<(string, V)>>)
    requires forall found: seq<(string, V)>, name: string :: step(found, name) == Kept(found, name, f(name), none)
    ensures var o := Run([], names, step);
      o.result.Ok? ==> forall n, v :: (n, v) in o.result.value <==> n in names && f(n).result == Ok(v) && v != none
  {
    if |names| > 0 {
      var init := names[..|names| - 1];
      var last := names[|names| - 1];
      RunKeeps(init, f, none, step);
      assert names == init + [last];
      var before := Run([], init, step);
      if before.result.Ok? {
        var found := before.result.value;
        var o := Run([], names, step);
        assert o.result == Kept(found, last, f(last), none).result by {
          assert step(found, last) == Kept(found, last, f(last), none);
        }
        if o.result.Ok? {
          forall n, v ensures (n, v) in o.result.value <==> n in names && f(n).result == Ok(v) && v != none {
            assert n in names <==> n in init || n == last;
          }
        }
      }
    }
  }

  /** A loop of `Kept` bodies records nothing and succeeds exactly when
      every comparison gives `none`. */
  lemma {:induction false} RunKeepsNothing<V>(names: seq<string>, f: string -> Outcome<V>, none: V,
                           step: (seq<(string, V)>, string) -> Outcome<seq<(string, V)>>)
    requires forall found: seq<(string, V)>, name: string :: step(found, name) == Kept(found, name, f(name), none)
    ensures Run([], names, step).result == Ok([]) <==> forall k :: 0 <= k < |names| ==> f(names[k]).result == Ok(none)
  {
    if |names| > 0 {
      var init := names[..|names| - 1];
      var last := names[|names| - 1];
      RunKeepsNothing(init, f, none, step);
      assert forall k :: 0 <= k < |init| ==> init[k] == names[k];
      var before := Run([], init, step);
      if before.result.Ok? {
        assert step(before.result.value, last) == Kept(before.result.value, last, f(last), none);
        if before.result == Ok([]) && f(last).result == Ok(none) {
          forall k | 0 <= k < |names| ensures f(names[k]).result == Ok(none) {
            if k < |init| {
              assert names[k] == init[k];
            }
          }
        }
      }
      if before.result != Ok([]) {
        var k :| 0 <= k < |init| && f(init[k]).result != Ok(none);
        assert f(names[k]).result != Ok(none);
      } else if f(last).result != Ok(none) {
        assert f(names[|names| - 1]).result != Ok(none);
      }
    }
  }

  function AddStepOf(kind: ObjectKind, schema: string, d2: Entries): (seq<string>, string) -> Outcome<seq<string>>
  {
    (added, name) => AddStep(kind, schema, d2, added, name)
  }

  /** One more pass of the first loop that has not raised yet. */
  lemma AddRunNext(kind: ObjectKind, schema: string, d2: Entries, names: seq<string>, i: nat, log: seq<Statement>)
    requires i < |names| && Run([], names[..i], AddStepOf(kind, schema, d2)).result.Ok?
    ensures var before := Run([], names[..i], AddStepOf(kind, schema, d2));
      var last := AddStep(kind, schema, d2, before.result.value, names[i]);
      Run([], names[..i + 1], AddStepOf(kind, schema, d2)).result == last.result
      && log + Run([], names[..i + 1], AddStepOf(kind, schema, d2)).appended
         == log + before.appended + last.appended
  {
    RunNext([], names, AddStepOf(kind, schema, d2), i, log);
  }

  /** The second loop: one `DROP` per dropped object, in order. */
  function DropStatements(kind: ObjectKind, schema: string, names: seq<string>): (r: seq<Statement>)
    ensures |r| == |names|
  {
    if names == [] then []
    else DropStatements(kind, schema, names[..|names| - 1]) + [Drop(kind, schema, names[|names| - 1])]
  }

  /** One more dropped name appends its `DROP`. */
  lemma DropStatementsAppend(kind: ObjectKind, schema: string, names: seq<string>, name: string)
    ensures DropStatements(kind, schema, names + [name]) == DropStatements(kind, schema, names) + [Drop(kind, schema, name)]
  {
    assert (names + [name])[..|names|] == names;
  }

  /** The `DROP` at each position is the one for the name at that
      position. */
  lemma {:induction false} DropStatementsAt(kind: ObjectKind, schema: string, names: seq<string>, k: nat)
    requires k < |names|
    ensures DropStatements(kind, schema, names)[k] == Drop(kind, schema, names[k])
    decreases |names|
  {
    var init := names[..|names| - 1];
    if k < |init| {
      DropStatementsAt(kind, schema, init, k);
    }
  }

  /** The second loop appends only `DROP`s of objects of its kind. */
  lemma {:induction false} DropStatementsKind(kind: ObjectKind, schema: string, names: seq<string>)
    ensures forall st :: st in DropStatements(kind, schema, names) ==> st.Drop? && st.Kind() == kind
  {
    if names != [] {
      DropStatementsKind(kind, schema, names[..|names| - 1]);
    }
  }

  /** The last loop: an object whose attributes differ is recorded with its
      differences. */
  function ModStep(t: Config.Toggles, kind: ObjectKind, schema: string, d1: Entries, d2: Entries,
                   modified: seq<(string, AttributesDiff)>, name: string)
    : Outcome<seq<(string, AttributesDiff)>>
  {
    var a := AttributesOutcome(t, kind, Field(d1, name), Field(d2, name), schema, name);
    if a.result.Err? then Outcome(Err(a.result.error), a.appended)
    else if a.result.value == NoAttributes then Outcome(Ok(modified), a.appended)
    else Outcome(Ok(modified + [(name, a.result.value)]), a.appended)
  }

  function ModStepOf(t: Config.Toggles, kind: ObjectKind, schema: string, d1: Entries, d2: Entries)
    : (seq<(string, AttributesDiff)>, string) -> Outcome<seq<(string, AttributesDiff)>>
  {
    (modified, name) => ModStep(t, kind, schema, d1, d2, modified, name)
  }

  /** One more pass of the last loop that has not raised yet. */
  lemma ModRunNext(t: Config.Toggles, kind: ObjectKind, schema: string, d1: Entries, d2: Entries,
                   names: seq<string>, i: nat, log: seq<Statement>)
    requires i < |names| && Run([], names[..i], ModStepOf(t, kind, schema, d1, d2)).result.Ok?
    ensures var before := Run([], names[..i], ModStepOf(t, kind, schema, d1, d2));
      var last := ModStep(t, kind, schema, d1, d2, before.result.value, names[i]);
      Run([], names[..i + 1], ModStepOf(t, kind, schema, d1, d2)).result == last.result
      && log + Run([], names[..i + 1], ModStepOf(t, kind, schema, d1, d2)).appended
         == log + before.appended + last.appended
  {
    RunNext([], names, ModStepOf(t, kind, schema, d1, d2), i, log);
  }

  /** `_compare_objects`: creations for the added objects, drops for the
      dropped ones, then the attribute comparison of the common ones; `None`
      when nothing was added, dropped or modified. */
  function ObjectsOutcome(t: Config.Toggles, kind: ObjectKind, obj1: Obj, obj2: Obj, schema: string)
    : Outcome<Option<ObjectsDiff>>
  {
    if !obj1.Dict? || !obj2.Dict? then Outcome(Err(AttributeError("keys")), [])
    else
      var d1 := obj1.entries;
      var d2 := obj2.entries;
      var adds := Run([], AddedNames(d1, d2), AddStepOf(kind, schema, d2));
      if adds.result.Err? then Outcome(Err(adds.result.error), adds.appended)
      else
        var dropped := DroppedNames(d1, d2);
        var drops := DropStatements(kind, schema, dropped);
        var nameDifferences := CompareSets(KeySet(d1), KeySet(d2), KindName(kind));
        var mods := Run([], CommonNames(d1, d2), ModStepOf(t, kind, schema, d1, d2));
        var appended := adds.appended + drops + mods.appended;
        if mods.result.Err? then Outcome(Err(mods.result.error), appended)
        else if adds.result.value == [] && dropped == [] && mods.result.value == [] then Outcome(Ok(None), appended)
        else Outcome(Ok(Some(ObjectsDiff(adds.result.value, dropped, nameDifferences, mods.result.value))), appended)
  }

  /** The first loop succeeds exactly when every added object's creation
      statement can be built; it then records every name, in order, and
      appends exactly those statements. */
  lemma AddRun(kind: ObjectKind, schema: string, d2: Entries, names: seq<string>)
    ensures var o := Run([], names, AddStepOf(kind, schema, d2));
      (o.result.Ok? <==> forall k :: 0 <= k < |names| ==> CreateStatement(kind, schema, names[k], Field(d2, names[k])).Ok?)
      && (o.result.Ok? ==>
            o.result.value == names && |o.appended| == |names|
            && forall k :: 0 <= k < |names| ==> CreateStatement(kind, schema, names[k], Field(d2, names[k])) == Ok(o.appended[k]))
      && (forall st :: st in o.appended ==> st.IsCreation() && st.Kind() == kind)
  {
    var f := (name: string) => CreateStatement(kind, schema, name, Field(d2, name));
    var step := AddStepOf(kind, schema, d2);
    forall done: seq<string>, x: string ensures step(done, x) == Collected(done, x, f(x)) { }
    RunCollects(names, f, step);
  }

  /** The last loop succeeds exactly when every object's comparison does,
      and then records exactly the objects whose attributes differ, each
      with its differences. */
  lemma ModRunExact(t: Config.Toggles, kind: ObjectKind, schema: string, d1: Entries, d2: Entries, names: seq<string>)
    ensures var o := Run([], names, ModStepOf(t, kind, schema, d1, d2));
      (o.result.Ok? <==>
         forall k :: 0 <= k < |names| ==>
           AttributesOutcome(t, kind, Field(d1, names[k]), Field(d2, names[k]), schema, names[k]).result.Ok?)
      && (o.result.Ok? ==>
            forall n, a :: (n, a) in o.result.value <==>
              n in names && AttributesOutcome(t, kind, Field(d1, n), Field(d2, n), schema, n).result == Ok(a)
              && a != NoAttributes)
  {
    var f := (name: string) => AttributesOutcome(t, kind, Field(d1, name), Field(d2, name), schema, name);
    var step := ModStepOf(t, kind, schema, d1, d2);
    forall found, name ensures step(found, name) == Kept(found, name, f(name), NoAttributes) { }
    RunKeepsOk(names, f, NoAttributes, step);
    RunKeeps(names, f, NoAttributes, step);
  }

  /** The last loop records nothing exactly when every object compares
      without differences. */
  lemma ModRunNothing(t: Config.Toggles, kind: ObjectKind, schema: string, d1: Entries, d2: Entries, names: seq<string>)
    ensures Run([], names, ModStepOf(t, kind, schema, d1, d2)).result == Ok([]) <==>
      forall k :: 0 <= k < |names| ==>
        AttributesOutcome(t, kind, Field(d1, names[k]), Field(d2, names[k]), schema, names[k]).result == Ok(NoAttributes)
  {
    var f := (name: string) => AttributesOutcome(t, kind, Field(d1, name), Field(d2, name), schema, name);
    var step := ModStepOf(t, kind, schema, d1, d2);
    forall found, name ensures step(found, name) == Kept(found, name, f(name), NoAttributes) { }
    RunKeepsNothing(names, f, NoAttributes, step);
  }

  /** The last loop appends only alterations of objects of its kind and
      records only common objects whose attributes differ. */
  lemma {:induction false} ModRun(t: Config.Toggles, kind: ObjectKind, schema: string, d1: Entries, d2: Entries,
                                  names: seq<string>)
    ensures var o := Run([], names, ModStepOf(t, kind, schema, d1, d2));
      (forall st :: st in o.appended ==> st.IsAlteration() && st.Kind() == kind)
      && (o.result.Ok? ==> forall e :: e in o.result.value ==> e.0 in names && e.1 != NoAttributes)
  {
    var step := ModStepOf(t, kind, schema, d1, d2);
    if |names| > 0 {
      var init := names[..|names| - 1];
      var last := names[|names| - 1];
      ModRun(t, kind, schema, d1, d2, init);
      var before := Run([], init, step);
      if before.result.Ok? {
        assert step(before.result.value, last) == ModStep(t, kind, schema, d1, d2, before.result.value, last);
        AttributesOwn(t, kind, Field(d1, last), Field(d2, last), schema, last);
        forall e | e in before.result.value ensures e.0 in names {
          assert e.0 in init;
        }
      }
    }
  }

  /** On success both arguments are dictionaries; the added names are
      exactly the keys only the second holds and the dropped names those
      only the first holds, each once; `name_differences` is the set
      comparison of the two key sets; every modified entry is a common
      object whose attributes differ, and every common object whose
      attributes differ is modified with its differences; and `None` is
      returned only for equal key sets. */
  lemma ObjectsCompared(t: Config.Toggles, kind: ObjectKind, obj1: Obj, obj2: Obj, schema: string)
    requires ObjectsOutcome(t, kind, obj1, obj2, schema).result.Ok?
    ensures obj1.Dict? && obj2.Dict?
    ensures var v := ObjectsOutcome(t, kind, obj1, obj2, schema).result.value;
      var d1 := obj1.entries;
      var d2 := obj2.entries;
      (v.None? ==> KeySet(d1) == KeySet(d2))
      && (v.Some? ==>
            (v.value.added != [] || v.value.dropped != [] || v.value.modified != [])
            && (forall n :: n in v.value.added <==> HasKey(d2, n) && !HasKey(d1, n))
            && (forall n :: n in v.value.dropped <==> HasKey(d1, n) && !HasKey(d2, n))
            && v.value.nameDifferences == CompareSets(KeySet(d1), KeySet(d2), KindName(kind))
            && (forall n, a :: (n, a) in v.value.modified <==>
                  HasKey(d1, n) && HasKey(d2, n)
                  && AttributesOutcome(t, kind, Field(d1, n), Field(d2, n), schema, n).result == Ok(a)
                  && a != NoAttributes)
            && (DistinctKeys(d1) && DistinctKeys(d2) ==> Distinct(v.value.added) && Distinct(v.value.dropped)))
  {
    var d1 := obj1.entries;
    var d2 := obj2.entries;
    KeysExact(d1);
    KeysExact(d2);
    AddRun(kind, schema, d2, AddedNames(d1, d2));
    ModRunExact(t, kind, schema, d1, d2, CommonNames(d1, d2));
    if DistinctKeys(d1) && DistinctKeys(d2) {
      NamesWhereDistinct(Keys(d2), d1, false);
      NamesWhereDistinct(Keys(d1), d2, false);
    }
  }

  /** The added and dropped names are both empty exactly when the two
      dictionaries hold the same names. */
  lemma SameNames(d1: Entries, d2: Entries)
    ensures AddedNames(d1, d2) == [] && DroppedNames(d1, d2) == [] <==> KeySet(d1) == KeySet(d2)
  {
    KeysExact(d1);
    KeysExact(d2);
    if AddedNames(d1, d2) != [] {
      assert AddedNames(d1, d2)[0] in AddedNames(d1, d2);
    }
    if DroppedNames(d1, d2) != [] {
      assert DroppedNames(d1, d2)[0] in DroppedNames(d1, d2);
    }
    if KeySet(d1) != KeySet(d2) {
      if exists n :: n in KeySet(d1) && n !in KeySet(d2) {
        var n :| n in KeySet(d1) && n !in KeySet(d2);
        assert n in DroppedNames(d1, d2);
      } else {
        var n :| n in KeySet(d2) && n !in KeySet(d1);
        assert n in AddedNames(d1, d2);
      }
    }
  }

  /** A property holds of every listed common name exactly when it holds
      of every name both dictionaries hold. */
  lemma EveryCommonName(d1: Entries, d2: Entries, p: string -> bool)
    ensures (forall k :: 0 <= k < |CommonNames(d1, d2)| ==> p(CommonNames(d1, d2)[k]))
        <==> forall n :: HasKey(d1, n) && HasKey(d2, n) ==> p(n)
  {
    var common := CommonNames(d1, d2);
    KeysExact(d1);
    forall n | HasKey(d1, n) && HasKey(d2, n) ensures n in common { }
  }

  /** A successful comparison gives `None` exactly when nothing was added,
      nothing dropped and nothing modified. */
  lemma ObjectsNoneParts(t: Config.Toggles, kind: ObjectKind, obj1: Obj, obj2: Obj, schema: string)
    requires ObjectsOutcome(t, kind, obj1, obj2, schema).result.Ok?
    ensures obj1.Dict? && obj2.Dict?
    ensures var d1 := obj1.entries;
      var d2 := obj2.entries;
      var mods := Run([], CommonNames(d1, d2), ModStepOf(t, kind, schema, d1, d2));
      mods.result.Ok?
      && (ObjectsOutcome(t, kind, obj1, obj2, schema).result.value.None? <==>
            AddedNames(d1, d2) == [] && DroppedNames(d1, d2) == [] && mods.result.value == [])
  {
    AddRun(kind, schema, obj2.entries, AddedNames(obj1.entries, obj2.entries));
  }

  /** A successful comparison gives `None` exactly when the two
      dictionaries hold the same names and every object both hold compares
      without differences. */
  lemma ObjectsNone(t: Config.Toggles, kind: ObjectKind, obj1: Obj, obj2: Obj, schema: string)
    requires ObjectsOutcome(t, kind, obj1, obj2, schema).result.Ok?
    ensures obj1.Dict? && obj2.Dict?
    ensures var d1 := obj1.entries;
      var d2 := obj2.entries;
      ObjectsOutcome(t, kind, obj1, obj2, schema).result.value.None? <==>
        KeySet(d1) == KeySet(d2)
        && forall n :: HasKey(d1, n) && HasKey(d2, n) ==>
             AttributesOutcome(t, kind, Field(d1, n), Field(d2, n), schema, n).result == Ok(NoAttributes)
  {
    ObjectsNoneParts(t, kind, obj1, obj2, schema);
    var d1 := obj1.entries;
    var d2 := obj2.entries;
    SameNames(d1, d2);
    var common := CommonNames(d1, d2);
    ModRunNothing(t, kind, schema, d1, d2, common);
    EveryCommonName(d1, d2,
      (n: string) => AttributesOutcome(t, kind, Field(d1, n), Field(d2, n), schema, n).result == Ok(NoAttributes));
  }

  /** Where an index of three concatenated runs of statements lands. */
  lemma PartAt(a: seq<Statement>, b: seq<Statement>, c: seq<Statement>, i: int)
    requires 0 <= i < |a| + |b| + |c|
    ensures (a + b + c)[i] == if i < |a| then a[i] else if i < |a| + |b| then b[i - |a|] else c[i - |a| - |b|]
  {
  }

  /** The statements of a successful comparison: the first loop's, the
      drops, the last loop's. */
  lemma ObjectsAppended(t: Config.Toggles, kind: ObjectKind, obj1: Obj, obj2: Obj, schema: string)
    requires obj1.Dict? && obj2.Dict? && ObjectsOutcome(t, kind, obj1, obj2, schema).result.Ok?
    ensures Run([], AddedNames(obj1.entries, obj2.entries), AddStepOf(kind, schema, obj2.entries)).result.Ok?
    ensures ObjectsOutcome(t, kind, obj1, obj2, schema).appended ==
      Run([], AddedNames(obj1.entries, obj2.entries), AddStepOf(kind, schema, obj2.entries)).appended
      + DropStatements(kind, schema, DroppedNames(obj1.entries, obj2.entries))
      + Run([], CommonNames(obj1.entries, obj2.entries), ModStepOf(t, kind, schema, obj1.entries, obj2.entries)).appended
  {
  }

  /** The source's order of statements: one creation per added object,
      then one `DROP` per dropped object, then alterations of objects of
      this kind. */
  predicate CreateDropAlterOrder(kind: ObjectKind, schema: string, d2: Entries, added: seq<string>,
                                 dropped: seq<string>, app: seq<Statement>)
  {
    |added| + |dropped| <= |app|
    && (forall i :: 0 <= i < |added| ==> CreateStatement(kind, schema, added[i], Field(d2, added[i])) == Ok(app[i]))
    && (forall i :: |added| <= i < |added| + |dropped| ==> app[i] == Drop(kind, schema, dropped[i - |added|]))
    && (forall i :: |added| + |dropped| <= i < |app| ==> app[i].IsAlteration() && app[i].Kind() == kind)
  }

  /** Creations, then drops, then alterations, laid end to end. */
  lemma OrderedParts(kind: ObjectKind, schema: string, d2: Entries, added: seq<string>, dropped: seq<string>,
                     adds: seq<Statement>, mods: seq<Statement>)
    requires |adds| == |added|
    requires forall k :: 0 <= k < |added| ==> CreateStatement(kind, schema, added[k], Field(d2, added[k])) == Ok(adds[k])
    requires forall st :: st in mods ==> st.IsAlteration() && st.Kind() == kind
    ensures CreateDropAlterOrder(kind, schema, d2, added, dropped, adds + DropStatements(kind, schema, dropped) + mods)
  {
    var drops := DropStatements(kind, schema, dropped);
    var app := adds + drops + mods;
    forall i | 0 <= i < |added|
      ensures CreateStatement(kind, schema, added[i], Field(d2, added[i])) == Ok(app[i])
    {
      PartAt(adds, drops, mods, i);
    }
    forall i | |added| <= i < |added| + |dropped|
      ensures app[i] == Drop(kind, schema, dropped[i - |added|])
    {
      PartAt(adds, drops, mods, i);
      DropStatementsAt(kind, schema, dropped, i - |added|);
    }
    forall i | |added| + |dropped| <= i < |app|
      ensures app[i].IsAlteration() && app[i].Kind() == kind
    {
      PartAt(adds, drops, mods, i);
      assert app[i] in mods;
    }
  }

  /** The statements come in the source's order: one creation per added
      object, then one `DROP` per dropped object, then alterations of
      objects of this kind. */
  lemma ObjectsOrdered(t: Config.Toggles, kind: ObjectKind, obj1: Obj, obj2: Obj, schema: string)
    requires obj1.Dict? && obj2.Dict? && ObjectsOutcome(t, kind, obj1, obj2, schema).result.Ok?
    ensures CreateDropAlterOrder(kind, schema, obj2.entries, AddedNames(obj1.entries, obj2.entries),
                                 DroppedNames(obj1.entries, obj2.entries),
                                 ObjectsOutcome(t, kind, obj1, obj2, schema).appended)
  {
    var d1 := obj1.entries;
    var d2 := obj2.entries;
    var added := AddedNames(d1, d2);
    var dropped := DroppedNames(d1, d2);
    var adds := Run([], added, AddStepOf(kind, schema, d2)).appended;
    var mods := Run([], CommonNames(d1, d2), ModStepOf(t, kind, schema, d1, d2)).appended;
    assert ObjectsOutcome(t, kind, obj1, obj2, schema).appended == adds + DropStatements(kind, schema, dropped) + mods
      && |adds| == |added|
      && forall k :: 0 <= k < |added| ==> CreateStatement(kind, schema, added[k], Field(d2, added[k])) == Ok(adds[k])
    by {
      ObjectsAppended(t, kind, obj1, obj2, schema);
      AddRun(kind, schema, d2, added);
    }
    assert forall st :: st in mods ==> st.IsAlteration() && st.Kind() == kind by {
      ModRun(t, kind, schema, d1, d2, CommonNames(d1, d2));
    }
    OrderedParts(kind, schema, d2, added, dropped, adds, mods);
  }

  /** Comparing objects with themselves finds nothing and appends
      nothing. */
  lemma ObjectsSelf(t: Config.Toggles, kind: ObjectKind, obj: Obj, schema: string)
    requires WellFormed(obj)
    ensures ObjectsOutcome(t, kind, obj, obj, schema).appended == []
    ensures ObjectsOutcome(t, kind, obj, obj, schema).result.Ok? ==>
      ObjectsOutcome(t, kind, obj, obj, schema).result == Ok(None)
  {
    if obj.Dict? {
      var d := obj.entries;
      NothingAdded(d);
      ModsQuiet(t, kind, schema, d);
    }
  }

  /** An object set compared with itself has no added or dropped name. */
  lemma NothingAdded(d: Entries)
    ensures AddedNames(d, d) == [] && DroppedNames(d, d) == []
  {
    KeysExact(d);
    NamesWhereNone(Keys(d), d, false);
  }

  /** The attribute loop over an object set compared with itself records
      nothing and appends nothing. */
  lemma ModsQuiet(t: Config.Toggles, kind: ObjectKind, schema: string, d: Entries)
    requires WellFormed(Dict(d))
    ensures Run([], CommonNames(d, d), ModStepOf(t, kind, schema, d, d)).appended == []
    ensures Run([], CommonNames(d, d), ModStepOf(t, kind, schema, d, d)).result.Ok? ==>
      Run([], CommonNames(d, d), ModStepOf(t, kind, schema, d, d)).result.value == []
  {
    var common := CommonNames(d, d);
    var step := ModStepOf(t, kind, schema, d, d);
    forall k | 0 <= k < |common|
      ensures step([], common[k]).appended == []
      ensures step([], common[k]).result.Ok? ==> step([], common[k]).result.value == []
    {
      FieldWellFormed(d, common[k]);
      AttributesSelf(t, kind, Field(d, common[k]), schema, common[k]);
      assert step([], common[k]) == ModStep(t, kind, schema, d, d, [], common[k]);
    }
    RunQuiet([], common, step);
  }

  // ---------------------------------------------------------------------
  // One schema: `_compare_schema_objects`

  /** The switch of an object kind (`compare_tables|views|udfs`). */
  function KindSwitch(t: Config.Toggles, kind: ObjectKind): bool
  {
    match kind
    case Tables => t.tables
    case Views => t.views
    case Udfs => t.udfs
  }

  /** One kind of object of a schema, read with `schema.get(kind, {})`;
      nothing is read when the kind is switched off. */
  function KindOutcome(t: Config.Toggles, kind: ObjectKind, s1: Obj, s2: Obj, schema: string)
    : Outcome<Option<ObjectsDiff>>
  {
    if !KindSwitch(t, kind) then Outcome(Ok(None), [])
    else
      match GetOr(s1, KindName(kind), Dict([]))
      case Err(e) => Outcome(Err(e), [])
      case Ok(o1) =>
        match GetOr(s2, KindName(kind), Dict([]))
        case Err(e) => Outcome(Err(e), [])
        case Ok(o2) => ObjectsOutcome(t, kind, o1, o2, schema)
  }

  /** `_compare_schema_objects`: tables, then views, then functions. */
  function SchemaObjectsOutcome(t: Config.Toggles, s1: Obj, s2: Obj, schema: string): Outcome<SchemaObjectsDiff>
  {
    var o := Both(KindOutcome(t, Tables, s1, s2, schema),
             Both(KindOutcome(t, Views, s1, s2, schema),
                  KindOutcome(t, Udfs, s1, s2, schema)));
    if o.result.Err? then Outcome(Err(o.result.error), o.appended)
    else Outcome(Ok(SchemaObjectsDiff(o.result.value.0, o.result.value.1.0, o.result.value.1.1)), o.appended)
  }

  /** The entry of the differences for one kind. */
  function OfKind(d: SchemaObjectsDiff, kind: ObjectKind): Option<ObjectsDiff>
  {
    match kind
    case Tables => d.tables
    case Views => d.views
    case Udfs => d.udfs
  }

  /** Every statement a comparison of objects of one kind appends is about
      an object of that kind. */
  lemma ObjectsOwnKind(t: Config.Toggles, kind: ObjectKind, obj1: Obj, obj2: Obj, schema: string)
    ensures forall st :: st in ObjectsOutcome(t, kind, obj1, obj2, schema).appended ==> st.Kind() == kind
  {
    if obj1.Dict? && obj2.Dict? {
      var d1 := obj1.entries;
      var d2 := obj2.entries;
      AddRun(kind, schema, d2, AddedNames(d1, d2));
      DropStatementsKind(kind, schema, DroppedNames(d1, d2));
      ModRun(t, kind, schema, d1, d2, CommonNames(d1, d2));
    }
  }

  lemma KindOwn(t: Config.Toggles, kind: ObjectKind, s1: Obj, s2: Obj, schema: string)
    ensures forall st :: st in KindOutcome(t, kind, s1, s2, schema).appended ==> st.Kind() == kind
  {
    if KindSwitch(t, kind) && GetOr(s1, KindName(kind), Dict([])).Ok? && GetOr(s2, KindName(kind), Dict([])).Ok? {
      ObjectsOwnKind(t, kind, GetOr(s1, KindName(kind), Dict([])).value, GetOr(s2, KindName(kind), Dict([])).value, schema);
    }
  }

  /** The result for each kind is that kind's comparison. */
  lemma SchemaObjectsResults(t: Config.Toggles, s1: Obj, s2: Obj, schema: string)
    ensures var o := SchemaObjectsOutcome(t, s1, s2, schema);
      o.result.Ok? ==> forall kind :: KindOutcome(t, kind, s1, s2, schema).result == Ok(OfKind(o.result.value, kind))
  {
    var tables := KindOutcome(t, Tables, s1, s2, schema);
    var views := KindOutcome(t, Views, s1, s2, schema);
    var udfs := KindOutcome(t, Udfs, s1, s2, schema);
    var rest := Both(views, udfs);
    var both := Both(tables, rest);
    var o := SchemaObjectsOutcome(t, s1, s2, schema);
    if o.result.Ok? {
      assert both.result.Ok?;
      var v := o.result.value;
      assert v == SchemaObjectsDiff(both.result.value.0, both.result.value.1.0, both.result.value.1.1);
      assert rest.result == Ok(both.result.value.1);
      forall kind ensures KindOutcome(t, kind, s1, s2, schema).result == Ok(OfKind(v, kind)) {
        match kind
        case Tables =>
        case Views =>
        case Udfs =>
      }
    }
  }

  /** Each statement appended comes from the comparison of its own kind. */
  lemma SchemaObjectsStatements(t: Config.Toggles, s1: Obj, s2: Obj, schema: string)
    ensures forall st :: st in SchemaObjectsOutcome(t, s1, s2, schema).appended ==>
      st in KindOutcome(t, st.Kind(), s1, s2, schema).appended
  {
    var o := SchemaObjectsOutcome(t, s1, s2, schema);
    KindOwn(t, Tables, s1, s2, schema);
    KindOwn(t, Views, s1, s2, schema);
    KindOwn(t, Udfs, s1, s2, schema);
    forall st | st in o.appended ensures st in KindOutcome(t, st.Kind(), s1, s2, schema).appended {
      if st in KindOutcome(t, Tables, s1, s2, schema).appended {
        assert st.Kind() == Tables;
      } else if st in KindOutcome(t, Views, s1, s2, schema).appended {
        assert st.Kind() == Views;
      } else {
        assert st in KindOutcome(t, Udfs, s1, s2, schema).appended;
        assert st.Kind() == Udfs;
      }
    }
  }

  /** A kind switched off reports nothing and has no statement appended
      about it. */
  lemma KindSilent(t: Config.Toggles, kind: ObjectKind, s1: Obj, s2: Obj, schema: string)
    requires !KindSwitch(t, kind)
    ensures var o := SchemaObjectsOutcome(t, s1, s2, schema);
      (o.result.Ok? ==> OfKind(o.result.value, kind).None?)
      && forall st :: st in o.appended ==> st.Kind() != kind
  {
    SchemaObjectsResults(t, s1, s2, schema);
    SchemaObjectsStatements(t, s1, s2, schema);
  }

  /** A kind neither schema holds compares an empty dictionary with an
      empty one and finds nothing: the schema builders store functions
      under `functions`, never under `udfs`. */
  lemma KindAbsent(t: Config.Toggles, kind: ObjectKind, s1: Obj, s2: Obj, schema: string)
    requires s1.Dict? && s2.Dict? && !HasKey(s1.entries, KindName(kind)) && !HasKey(s2.entries, KindName(kind))
    ensures KindOutcome(t, kind, s1, s2, schema) == Outcome(Ok(None), [])
  {
    ObjectsSelf(t, kind, Dict([]), schema);
  }

  /** One kind of objects of a schema compared with itself: nothing
      found, nothing appended. */
  lemma KindSelf(t: Config.Toggles, kind: ObjectKind, s: Obj, schema: string)
    requires WellFormed(s)
    ensures KindOutcome(t, kind, s, s, schema).appended == []
    ensures KindOutcome(t, kind, s, s, schema).result.Ok? ==> KindOutcome(t, kind, s, s, schema).result == Ok(None)
  {
    if KindSwitch(t, kind) && s.Dict? {
      var o := GetOr(s, KindName(kind), Dict([])).value;
      FieldWellFormed(s.entries, KindName(kind));
      assert WellFormed(o);
      ObjectsSelf(t, kind, o, schema);
    }
  }

  /** A schema compared with itself has no differences and no
      statements. */
  lemma SchemaObjectsSelf(t: Config.Toggles, s: Obj, schema: string)
    requires WellFormed(s)
    ensures SchemaObjectsOutcome(t, s, s, schema).appended == []
    ensures SchemaObjectsOutcome(t, s, s, schema).result.Ok? ==>
      SchemaObjectsOutcome(t, s, s, schema).result == Ok(NoObjects)
  {
    KindSelf(t, Tables, s, schema);
    KindSelf(t, Views, s, schema);
    KindSelf(t, Udfs, s, schema);
  }

  // ---------------------------------------------------------------------
  // Whole schemas: `compare_schemas`

  /** `schema1['schemas'].keys()` then `schema2['schemas'].keys()`. */
  function SchemaMaps(schema1: Obj, schema2: Obj): (r: Result<(Entries, Entries)>)
    ensures r.Ok? ==>
      GetItem(schema1, "schemas") == Ok(Dict(r.value.0)) && GetItem(schema2, "schemas") == Ok(Dict(r.value.1))
  {
    var m1 :- GetItem(schema1, "schemas");
    if !m1.Dict? then Err(AttributeError("keys"))
    else
      var m2 :- GetItem(schema2, "schemas");
      if !m2.Dict? then Err(AttributeError("keys"))
      else Ok((m1.entries, m2.entries))
  }

  /** The loop over the common schemas: a schema whose objects differ is
      recorded with its differences. */
  function SchemaStep(t: Config.Toggles, d1: Entries, d2: Entries, found: seq<(string, SchemaObjectsDiff)>, name: string)
    : Outcome<seq<(string, SchemaObjectsDiff)>>
  {
    var o := SchemaObjectsOutcome(t, Field(d1, name), Field(d2, name), name);
    if o.result.Err? then Outcome(Err(o.result.error), o.appended)
    else if o.result.value == NoObjects then Outcome(Ok(found), o.appended)
    else Outcome(Ok(found + [(name, o.result.value)]), o.appended)
  }

  function SchemaStepOf(t: Config.Toggles, d1: Entries, d2: Entries)
    : (seq<(string, SchemaObjectsDiff)>, string) -> Outcome<seq<(string, SchemaObjectsDiff)>>
  {
    (found, name) => SchemaStep(t, d1, d2, found, name)
  }

  /** One more pass of the schema loop that has not raised yet. */
  lemma SchemaRunNext(t: Config.Toggles, d1: Entries, d2: Entries, names: seq<string>, i: nat, log: seq<Statement>)
    requires i < |names| && Run([], names[..i], SchemaStepOf(t, d1, d2)).result.Ok?
    ensures var before := Run([], names[..i], SchemaStepOf(t, d1, d2));
      var last := SchemaStep(t, d1, d2, before.result.value, names[i]);
      Run([], names[..i + 1], SchemaStepOf(t, d1, d2)).result == last.result
      && log + Run([], names[..i + 1], SchemaStepOf(t, d1, d2)).appended
         == log + before.appended + last.appended
  {
    RunNext([], names, SchemaStepOf(t, d1, d2), i, log);
  }

  /** `compare_schemas`: the set comparison of the schema names when
      switched on, then the objects of every schema both hold. */
  function SchemasOutcome(t: Config.Toggles, schema1: Obj, schema2: Obj): Outcome<SchemasDiff>
  {
    match SchemaMaps(schema1, schema2)
    case Err(e) => Outcome(Err(e), [])
    case Ok(maps) =>
      var d1 := maps.0;
      var d2 := maps.1;
      var names := if t.schemas then CompareSets(KeySet(d1), KeySet(d2), "schemas") else None;
      var run := Run([], CommonNames(d1, d2), SchemaStepOf(t, d1, d2));
      Outcome(if run.result.Ok? then Ok(SchemasDiff(names, run.result.value)) else Err(run.result.error), run.appended)
  }

  /** The loop over common schemas succeeds exactly when every schema's
      comparison does, and then records exactly the schemas whose objects
      differ, each with its differences. */
  lemma SchemaRunExact(t: Config.Toggles, d1: Entries, d2: Entries, names: seq<string>)
    ensures var o := Run([], names, SchemaStepOf(t, d1, d2));
      (o.result.Ok? <==>
         forall k :: 0 <= k < |names| ==> SchemaObjectsOutcome(t, Field(d1, names[k]), Field(d2, names[k]), names[k]).result.Ok?)
      && (o.result.Ok? ==>
            forall n, v :: (n, v) in o.result.value <==>
              n in names && SchemaObjectsOutcome(t, Field(d1, n), Field(d2, n), n).result == Ok(v) && v != NoObjects)
  {
    var f := (name: string) => SchemaObjectsOutcome(t, Field(d1, name), Field(d2, name), name);
    var step := SchemaStepOf(t, d1, d2);
    forall found, name ensures step(found, name) == Kept(found, name, f(name), NoObjects) { }
    RunKeepsOk(names, f, NoObjects, step);
    RunKeeps(names, f, NoObjects, step);
  }

  /** The loop over common schemas records only names it visits, each with
      differences that are not empty. */
  lemma {:induction false} SchemaRun(t: Config.Toggles, d1: Entries, d2: Entries, names: seq<string>)
    ensures var o := Run([], names, SchemaStepOf(t, d1, d2));
      o.result.Ok? ==> forall e :: e in o.result.value ==> e.0 in names && e.1 != NoObjects
  {
    var step := SchemaStepOf(t, d1, d2);
    if |names| > 0 {
      var init := names[..|names| - 1];
      var last := names[|names| - 1];
      SchemaRun(t, d1, d2, init);
      var before := Run([], init, step);
      if before.result.Ok? {
        assert step(before.result.value, last) == SchemaStep(t, d1, d2, before.result.value, last);
        forall e | e in before.result.value ensures e.0 in names {
          assert e.0 in init;
        }
      }
    }
  }

  /** On success the `schemas` entry is the set comparison of the two
      schema-name sets when the switch is on and absent when it is off, and
      the per-schema entries are exactly the schemas both hold whose
      objects differ, each with its differences. */
  lemma SchemasCompared(t: Config.Toggles, schema1: Obj, schema2: Obj)
    requires SchemasOutcome(t, schema1, schema2).result.Ok?
    ensures SchemaMaps(schema1, schema2).Ok?
    ensures var v := SchemasOutcome(t, schema1, schema2).result.value;
      var d1 := SchemaMaps(schema1, schema2).value.0;
      var d2 := SchemaMaps(schema1, schema2).value.1;
      v.schemas == (if t.schemas then CompareSets(KeySet(d1), KeySet(d2), "schemas") else None)
      && (t.schemas ==> (v.schemas.None? <==> KeySet(d1) == KeySet(d2)))
      && forall n, o :: (n, o) in v.perSchema <==>
           HasKey(d1, n) && HasKey(d2, n)
           && SchemaObjectsOutcome(t, Field(d1, n), Field(d2, n), n).result == Ok(o) && o != NoObjects
  {
    var d1 := SchemaMaps(schema1, schema2).value.0;
    var d2 := SchemaMaps(schema1, schema2).value.1;
    KeysExact(d1);
    SchemaRunExact(t, d1, d2, CommonNames(d1, d2));
  }

  /** A schema dictionary compared with itself has no differences and
      appends no statement. */
  lemma SchemasSelf(t: Config.Toggles, schema: Obj)
    requires WellFormed(schema)
    ensures SchemasOutcome(t, schema, schema).appended == []
    ensures SchemasOutcome(t, schema, schema).result.Ok? ==>
      SchemasOutcome(t, schema, schema).result == Ok(SchemasDiff(None, []))
  {
    if SchemaMaps(schema, schema).Ok? {
      var d := SchemaMaps(schema, schema).value.0;
      FieldWellFormed(schema.entries, "schemas");
      assert WellFormed(Dict(d));
      var common := CommonNames(d, d);
      var step := SchemaStepOf(t, d, d);
      forall k | 0 <= k < |common|
        ensures step([], common[k]).appended == []
        ensures step([], common[k]).result.Ok? ==> step([], common[k]).result.value == []
      {
        FieldWellFormed(d, common[k]);
        SchemaObjectsSelf(t, Field(d, common[k]), common[k]);
        assert step([], common[k]) == SchemaStep(t, d, d, [], common[k]);
      }
      RunQuiet([], common, step);
    }
  }
}
