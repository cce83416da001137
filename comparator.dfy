/** The schema comparator object: it keeps the configuration it was built
    with and the list of reconciliation statements its comparisons append
    to. Each method performs its comparison step by step and is proved to
    return the result and append the statements that the corresponding
    function of module SchemaDiff describes. */
module Comparator {
  import opened Base
  import opened PyObj
  import Config
  import opened SchemaDiff

  class HiveSchemaComparator {
    const config: Config.Config
    var sqlStatements: seq<string>
    /** The statements whose texts `sqlStatements` holds. */
    ghost var issued: seq<Statement>

    /** The statement list holds the texts of the issued statements, in
        order. */
    ghost predicate Valid()
      reads this
    {
      |sqlStatements| == |issued|
      && forall k :: 0 <= k < |issued| ==> sqlStatements[k] == Text(issued[k])
    }

    /** The comparison switches, read from the `compare` section the way
        the comparator reads them: by truth value. */
    function Switches(): Config.Toggles
    {
      Config.ComparatorTogglesAsWritten(config)
    }

    constructor(cfg: Config.Config)
      ensures config == cfg && sqlStatements == [] && Valid()
    {
      config := cfg;
      sqlStatements := [];
      issued := [];
    }

    /** `self.sql_statements.append(...)` with the text of `st`. */
    method Issue(st: Statement)
      requires Valid()
      modifies this
      ensures Valid()
      ensures issued == old(issued) + [st]
    {
      assert (issued + [st])[..|issued|] == issued;
      sqlStatements := sqlStatements + [Text(st)];
      issued := issued + [st];
    }

    /** One pass of a loop of `_compare_columns`: an item that the other
        side's list does not hold is recorded with the type at its
        position, and its statement is appended. */
    method CompareColumnAt(op: ColumnOp, other: Obj, types: Obj, schema: string, table: string,
                           found: seq<ColumnChange>, x: (nat, Obj))
      returns (r: Result<seq<ColumnChange>>)
      requires Valid()
      modifies this
      ensures Valid()
      ensures r == ColumnStep(op, other, types, schema, table, found, x).result
      ensures issued == old(issued) + ColumnStep(op, other, types, schema, table, found, x).appended
    {
      var present := In(x.1, other);
      if present.Err? {
        r := Err(present.error);
      } else if present.value {
        r := Ok(found);
      } else {
        var ty := Index(types, x.0);
        if ty.Err? {
          r := Err(ty.error);
        } else {
          var change := ColumnChange(x.1, ty.value);
          Issue(ColumnStatement(op, schema, table, change));
          r := Ok(found + [change]);
        }
      }
    }

    /** One loop of `_compare_columns` over the items of one side. */
    method CompareColumnLoop(op: ColumnOp, items: seq<Obj>, other: Obj, types: Obj, schema: string, table: string)
      returns (r: Result<seq<ColumnChange>>)
      requires Valid()
      modifies this
      ensures Valid()
      ensures r == ColumnRun(op, items, other, types, schema, table).result
      ensures issued == old(issued) + ColumnRun(op, items, other, types, schema, table).appended
    {
      var en := Enumerate(items);
      ghost var start := issued;
      var found: seq<ColumnChange> := [];
      var i := 0;
      while i < |en|
        invariant 0 <= i <= |en|
        invariant Valid()
        invariant Run([], en[..i], ColumnStepOf(op, other, types, schema, table)).result == Ok(found)
        invariant issued == start + Run([], en[..i], ColumnStepOf(op, other, types, schema, table)).appended
      {
        ColumnRunNext(op, other, types, schema, table, en, i, start);
        var next := CompareColumnAt(op, other, types, schema, table, found, en[i]);
        if next.Err? {
          RunStops([], en, ColumnStepOf(op, other, types, schema, table), i + 1);
          assert en[..|en|] == en;
          return next;
        }
        found := next.value;
        i := i + 1;
      }
      assert en[..i] == en;
      return Ok(found);
    }

    /** `_compare_columns`: the columns the second list adds, then the
        columns it drops; `None` when there are neither. */
    method CompareColumns(cols1: Obj, cols2: Obj, types1: Obj, types2: Obj, table: string, schema: string)
      returns (r: Result<Option<ColumnsDiff>>)
      requires Valid()
      modifies this
      ensures Valid()
      ensures r == ColumnsOutcome(cols1, cols2, types1, types2, schema, table).result
      ensures issued == old(issued) + ColumnsOutcome(cols1, cols2, types1, types2, schema, table).appended
    {
      ghost var start := issued;
      var items2 := Items(cols2);
      if items2.Err? {
        r := Err(items2.error);
      } else {
        var added := CompareColumnLoop(Adding, items2.value, cols1, types2, schema, table);
        if added.Err? {
          r := Err(added.error);
        } else {
          var items1 := Items(cols1);
          if items1.Err? {
            r := Err(items1.error);
          } else {
            var dropped := CompareColumnLoop(Dropping, items1.value, cols2, types1, schema, table);
            AppendAssoc(start, ColumnRun(Adding, items2.value, cols1, types2, schema, table).appended,
                        ColumnRun(Dropping, items1.value, cols2, types1, schema, table).appended);
            if dropped.Err? {
              r := Err(dropped.error);
            } else if added.value == [] && dropped.value == [] {
              r := Ok(None);
            } else {
              r := Ok(Some(ColumnsDiff(added.value, dropped.value)));
            }
          }
        }
      }
    }

    /** One value-compared block of `_compare_attributes`: when switched on
        and the two values differ, the statement (for the primary key, the
        `DROP` and then the `ADD`) is appended and the change reported. */
    method CompareDimension(dim: Dimension, on: bool, obj1: Obj, obj2: Obj, name: string, schema: string)
      returns (r: Result<Option<Change>>)
      requires Valid()
      modifies this
      ensures Valid()
      ensures r == ChangeDimension(dim, on, obj1, obj2, schema, name).result
      ensures issued == old(issued) + ChangeDimension(dim, on, obj1, obj2, schema, name).appended
    {
      if !on {
        r := Ok(None);
      } else {
        var differs := Differs(dim, obj1, obj2);
        if differs.Err? {
          r := Err(differs.error);
        } else if differs.value.None? {
          r := Ok(None);
        } else if dim == PrimaryKeyDim {
          Issue(DropPrimaryKey(schema, name));
          var columns := PrimaryKeyColumns(obj2);
          if columns.Err? {
            r := Err(columns.error);
          } else {
            Issue(AddPrimaryKey(schema, name, columns.value));
            r := Ok(differs.value);
          }
        } else {
          var st: Result<Statement>;
          match dim {
          case SerdesDim =>
            st := SerdeStatement(obj2, schema, name);
          case LocationDim =>
            st := LocationStatement(obj2, schema, name);
          case BucketDim =>
            st := ClusterStatement(obj2, schema, name);
          case QueryDim =>
            st := QueryStatement(obj2, schema, name);
          }
          if st.Err? {
            r := Err(st.error);
          } else {
            Issue(st.value);
            r := Ok(differs.value);
          }
        }
      }
    }

    /** The columns block of `_compare_attributes`: `_compare_columns` is
        called only when switched on and both objects hold `columns`. */
    method CompareColumnDimension(on: bool, obj1: Obj, obj2: Obj, name: string, schema: string)
      returns (r: Result<Option<ColumnsDiff>>)
      requires Valid()
      modifies this
      ensures Valid()
      ensures r == ColumnsDimension(on, obj1, obj2, schema, name).result
      ensures issued == old(issued) + ColumnsDimension(on, obj1, obj2, schema, name).appended
    {
      if !on {
        r := Ok(None);
      } else {
        var in1 := In(Str("columns"), obj1);
        if in1.Err? {
          r := Err(in1.error);
        } else if !in1.value {
          r := Ok(None);
        } else {
          var in2 := In(Str("columns"), obj2);
          if in2.Err? {
            r := Err(in2.error);
          } else if !in2.value {
            r := Ok(None);
          } else {
            var cols1 := GetItem(obj1, "columns");
            var cols2 := GetItem(obj2, "columns");
            if cols1.Err? {
              r := Err(cols1.error);
            } else if cols2.Err? {
              r := Err(cols2.error);
            } else {
              // both objects are dictionaries here, so `get` cannot raise
              var types1 := GetOr(obj1, "data_types", List([])).value;
              var types2 := GetOr(obj2, "data_types", List([])).value;
              r := CompareColumns(cols1.value, cols2.value, types1, types2, name, schema);
            }
          }
        }
      }
    }

    /** Two value-compared blocks of `_compare_attributes`, one after the
        other: the second is not reached when the first raises. */
    method CompareDimensions(dim1: Dimension, on1: bool, dim2: Dimension, on2: bool,
                             obj1: Obj, obj2: Obj, name: string, schema: string)
      returns (r: Result<(Option<Change>, Option<Change>)>)
      requires Valid()
      modifies this
      ensures Valid()
      ensures r == Both(ChangeDimension(dim1, on1, obj1, obj2, schema, name),
                        ChangeDimension(dim2, on2, obj1, obj2, schema, name)).result
      ensures issued == old(issued) + Both(ChangeDimension(dim1, on1, obj1, obj2, schema, name),
                                           ChangeDimension(dim2, on2, obj1, obj2, schema, name)).appended
    {
      AppendAssoc(issued, ChangeDimension(dim1, on1, obj1, obj2, schema, name).appended,
                  ChangeDimension(dim2, on2, obj1, obj2, schema, name).appended);
      var first := CompareDimension(dim1, on1, obj1, obj2, name, schema);
      if first.Err? {
        r := Err(first.error);
      } else {
        var second := CompareDimension(dim2, on2, obj1, obj2, name, schema);
        if second.Err? {
          r := Err(second.error);
        } else {
          r := Ok((first.value, second.value));
        }
      }
    }

    /** The table block of `_compare_attributes`: columns, serdes,
        location, primary key and bucket, in that order; the first
        exception ends it. */
    method CompareTableAttributes(obj1: Obj, obj2: Obj, name: string, schema: string)
      returns (r: Result<AttributesDiff>)
      requires Valid()
      modifies this
      ensures Valid()
      ensures r == TableAttributes(Switches(), obj1, obj2, schema, name).result
      ensures issued == old(issued) + TableAttributes(Switches(), obj1, obj2, schema, name).appended
    {
      var t := Switches();
      ghost var start := issued;
      ghost var c := ColumnsDimension(t.columns, obj1, obj2, schema, name);
      ghost var sl := Both(ChangeDimension(SerdesDim, t.serdes, obj1, obj2, schema, name),
                           ChangeDimension(LocationDim, t.location, obj1, obj2, schema, name));
      ghost var pb := Both(ChangeDimension(PrimaryKeyDim, t.primaryKey, obj1, obj2, schema, name),
                           ChangeDimension(BucketDim, t.bucket, obj1, obj2, schema, name));
      ghost var whole := TableAttributes(t, obj1, obj2, schema, name);
      assert whole == AttributesOf(c, ChangeDimension(SerdesDim, t.serdes, obj1, obj2, schema, name),
                                   ChangeDimension(LocationDim, t.location, obj1, obj2, schema, name),
                                   ChangeDimension(PrimaryKeyDim, t.primaryKey, obj1, obj2, schema, name),
                                   ChangeDimension(BucketDim, t.bucket, obj1, obj2, schema, name));
      AppendAssoc(start, c.appended, sl.appended);
      AppendAssoc(start, c.appended + sl.appended, pb.appended);
      var columns := CompareColumnDimension(t.columns, obj1, obj2, name, schema);
      if columns.Err? {
        r := Err(columns.error);
      } else {
        var serdesAndLocation := CompareDimensions(SerdesDim, t.serdes, LocationDim, t.location, obj1, obj2, name, schema);
        if serdesAndLocation.Err? {
          r := Err(serdesAndLocation.error);
        } else {
          var keyAndBucket := CompareDimensions(PrimaryKeyDim, t.primaryKey, BucketDim, t.bucket, obj1, obj2, name, schema);
          if keyAndBucket.Err? {
            r := Err(keyAndBucket.error);
          } else {
            var (serdes, location) := serdesAndLocation.value;
            var (primaryKey, bucket) := keyAndBucket.value;
            r := Ok(AttributesDiff(columns.value, serdes, location, primaryKey, bucket, None));
          }
        }
      }
    }

    /** `_compare_attributes`: a table's attributes, a view's query (with
        no switch), nothing for a function. */
    method CompareAttributes(obj1: Obj, obj2: Obj, name: string, kind: ObjectKind, schema: string)
      returns (r: Result<AttributesDiff>)
      requires Valid()
      modifies this
      ensures Valid()
      ensures r == AttributesOutcome(Switches(), kind, obj1, obj2, schema, name).result
      ensures issued == old(issued) + AttributesOutcome(Switches(), kind, obj1, obj2, schema, name).appended
    {
      match kind {
      case Tables =>
        r := CompareTableAttributes(obj1, obj2, name, schema);
      case Views =>
        var query := CompareDimension(QueryDim, true, obj1, obj2, name, schema);
        if query.Err? {
          return Err(query.error);
        }
        return Ok(NoAttributes.(query := query.value));
      case Udfs =>
        return Ok(NoAttributes);
      }
    }

    /** One pass of the first loop of `_compare_objects`: the added object
        is recorded and its creation statement appended. */
    method AddObject(kind: ObjectKind, schema: string, d2: Entries, added: seq<string>, name: string)
      returns (r: Result<seq<string>>)
      requires Valid()
      modifies this
      ensures Valid()
      ensures r == AddStep(kind, schema, d2, added, name).result
      ensures issued == old(issued) + AddStep(kind, schema, d2, added, name).appended
    {
      var st := CreateStatement(kind, schema, name, Field(d2, name));
      if st.Err? {
        r := Err(st.error);
      } else {
        Issue(st.value);
        r := Ok(added + [name]);
      }
    }

    /** The first loop of `_compare_objects`, over the names only the
        second side holds. */
    method AddObjects(kind: ObjectKind, schema: string, d2: Entries, names: seq<string>)
      returns (r: Result<seq<string>>)
      requires Valid()
      modifies this
      ensures Valid()
      ensures r == Run([], names, AddStepOf(kind, schema, d2)).result
      ensures issued == old(issued) + Run([], names, AddStepOf(kind, schema, d2)).appended
    {
      ghost var start := issued;
      var added: seq<string> := [];
      var i := 0;
      while i < |names|
        invariant 0 <= i <= |names|
        invariant Valid()
        invariant Run([], names[..i], AddStepOf(kind, schema, d2)).result == Ok(added)
        invariant issued == start + Run([], names[..i], AddStepOf(kind, schema, d2)).appended
      {
        AddRunNext(kind, schema, d2, names, i, start);
        var next := AddObject(kind, schema, d2, added, names[i]);
        if next.Err? {
          RunStops([], names, AddStepOf(kind, schema, d2), i + 1);
          assert names[..|names|] == names;
          return next;
        }
        added := next.value;
        i := i + 1;
      }
      assert names[..i] == names;
      return Ok(added);
    }

    /** The second loop of `_compare_objects`: every name only the first
        side holds is recorded and its `DROP` appended. */
    method DropObjects(kind: ObjectKind, schema: string, names: seq<string>)
      returns (dropped: seq<string>)
      requires Valid()
      modifies this
      ensures Valid()
      ensures dropped == names
      ensures issued == old(issued) + DropStatements(kind, schema, names)
    {
      dropped := [];
      ghost var start := issued;
      var i := 0;
      while i < |names|
        invariant 0 <= i <= |names|
        invariant Valid()
        invariant dropped == names[..i]
        invariant issued == start + DropStatements(kind, schema, dropped)
      {
        assert names[..i + 1] == names[..i] + [names[i]];
        var st := Drop(kind, schema, names[i]);
        DropStatementsAppend(kind, schema, dropped, names[i]);
        AppendAssoc(start, DropStatements(kind, schema, dropped), [st]);
        Issue(st);
        dropped := dropped + [names[i]];
        i := i + 1;
      }
      assert names[..i] == names;
    }

    /** One pass of the last loop of `_compare_objects`: a common object
        whose attributes differ is recorded with its differences, which
        carries the loop's result and statements from the names before
        `names[i]` to the names up to and including it. */
    method CompareObjectAt(kind: ObjectKind, schema: string, d1: Entries, d2: Entries, names: seq<string>, i: nat,
                           modified: seq<(string, AttributesDiff)>, ghost start: seq<Statement>)
      returns (r: Result<seq<(string, AttributesDiff)>>)
      requires Valid() && i < |names|
      requires Run([], names[..i], ModStepOf(Switches(), kind, schema, d1, d2)).result == Ok(modified)
      requires issued == start + Run([], names[..i], ModStepOf(Switches(), kind, schema, d1, d2)).appended
      modifies this
      ensures Valid()
      ensures r == Run([], names[..i + 1], ModStepOf(Switches(), kind, schema, d1, d2)).result
      ensures issued == start + Run([], names[..i + 1], ModStepOf(Switches(), kind, schema, d1, d2)).appended
    {
      ModRunNext(Switches(), kind, schema, d1, d2, names, i, start);
      var name := names[i];
      var a := CompareAttributes(Field(d1, name), Field(d2, name), name, kind, schema);
      if a.Err? {
        r := Err(a.error);
      } else if a.value == NoAttributes {
        r := Ok(modified);
      } else {
        r := Ok(modified + [(name, a.value)]);
      }
    }

    /** The last loop of `_compare_objects`, over the names both sides
        hold. */
    method CompareCommonObjects(kind: ObjectKind, schema: string, d1: Entries, d2: Entries, names: seq<string>)
      returns (r: Result<seq<(string, AttributesDiff)>>)
      requires Valid()
      modifies this
      ensures Valid()
      ensures r == Run([], names, ModStepOf(Switches(), kind, schema, d1, d2)).result
      ensures issued == old(issued) + Run([], names, ModStepOf(Switches(), kind, schema, d1, d2)).appended
    {
      ghost var start := issued;
      var modified: seq<(string, AttributesDiff)> := [];
      var i := 0;
      while i < |names|
        invariant 0 <= i <= |names|
        invariant Valid()
        invariant Run([], names[..i], ModStepOf(Switches(), kind, schema, d1, d2)).result == Ok(modified)
        invariant issued == start + Run([], names[..i], ModStepOf(Switches(), kind, schema, d1, d2)).appended
      {
        var next := CompareObjectAt(kind, schema, d1, d2, names, i, modified, start);
        if next.Err? {
          RunStops([], names, ModStepOf(Switches(), kind, schema, d1, d2), i + 1);
          assert names[..|names|] == names;
          return next;
        }
        modified := next.value;
        i := i + 1;
      }
      assert names[..i] == names;
      return Ok(modified);
    }

    /** `_compare_objects`: creations for the added objects, drops for the
        dropped ones, the set comparison of the names, then the attributes
        of the common ones; `None` when nothing was added, dropped or
        modified. */
    method CompareObjects(obj1: Obj, obj2: Obj, kind: ObjectKind, schema: string)
      returns (r: Result<Option<ObjectsDiff>>)
      requires Valid()
      modifies this
      ensures Valid()
      ensures r == ObjectsOutcome(Switches(), kind, obj1, obj2, schema).result
      ensures issued == old(issued) + ObjectsOutcome(Switches(), kind, obj1, obj2, schema).appended
    {
      if !obj1.Dict? || !obj2.Dict? {
        r := Err(AttributeError("keys"));
      } else {
        var d1 := obj1.entries;
        var d2 := obj2.entries;
        ghost var start := issued;
        ghost var adds := Run([], AddedNames(d1, d2), AddStepOf(kind, schema, d2)).appended;
        ghost var drops := DropStatements(kind, schema, DroppedNames(d1, d2));
        ghost var mods := Run([], CommonNames(d1, d2), ModStepOf(Switches(), kind, schema, d1, d2)).appended;
        AppendAssoc(start, adds, drops);
        AppendAssoc(start, adds + drops, mods);
        var added := AddObjects(kind, schema, d2, AddedNames(d1, d2));
        if added.Err? {
          r := Err(added.error);
        } else {
          var dropped := DropObjects(kind, schema, DroppedNames(d1, d2));
          var nameDifferences := CompareSets(KeySet(d1), KeySet(d2), KindName(kind));
          var modified := CompareCommonObjects(kind, schema, d1, d2, CommonNames(d1, d2));
          if modified.Err? {
            r := Err(modified.error);
          } else if added.value == [] && dropped == [] && modified.value == [] {
            r := Ok(None);
          } else {
            r := Ok(Some(ObjectsDiff(added.value, dropped, nameDifferences, modified.value)));
          }
        }
      }
    }

    /** One kind of object of `_compare_schema_objects`, read with
        `schema.get(kind, {})` when its switch is on. */
    method CompareKind(kind: ObjectKind, s1: Obj, s2: Obj, schema: string)
      returns (r: Result<Option<ObjectsDiff>>)
      requires Valid()
      modifies this
      ensures Valid()
      ensures r == KindOutcome(Switches(), kind, s1, s2, schema).result
      ensures issued == old(issued) + KindOutcome(Switches(), kind, s1, s2, schema).appended
    {
      if !KindSwitch(Switches(), kind) {
        r := Ok(None);
      } else {
        var o1 := GetOr(s1, KindName(kind), Dict([]));
        var o2 := GetOr(s2, KindName(kind), Dict([]));
        if o1.Err? {
          r := Err(o1.error);
        } else if o2.Err? {
          r := Err(o2.error);
        } else {
          r := CompareObjects(o1.value, o2.value, kind, schema);
        }
      }
    }

    /** `_compare_schema_objects`: tables, then views, then functions; the
        first exception ends it. */
    method CompareSchemaObjects(s1: Obj, s2: Obj, schema: string)
      returns (r: Result<SchemaObjectsDiff>)
      requires Valid()
      modifies this
      ensures Valid()
      ensures r == SchemaObjectsOutcome(Switches(), s1, s2, schema).result
      ensures issued == old(issued) + SchemaObjectsOutcome(Switches(), s1, s2, schema).appended
    {
      ghost var start := issued;
      ghost var t := KindOutcome(Switches(), Tables, s1, s2, schema);
      ghost var v := KindOutcome(Switches(), Views, s1, s2, schema);
      ghost var u := KindOutcome(Switches(), Udfs, s1, s2, schema);
      AppendAssoc(start, t.appended, v.appended);
      AppendAssoc(start, t.appended + v.appended, u.appended);
      AppendAssoc(t.appended, v.appended, u.appended);
      var tables := CompareKind(Tables, s1, s2, schema);
      if tables.Err? {
        r := Err(tables.error);
      } else {
        var views := CompareKind(Views, s1, s2, schema);
        if views.Err? {
          r := Err(views.error);
        } else {
          var udfs := CompareKind(Udfs, s1, s2, schema);
          if udfs.Err? {
            r := Err(udfs.error);
          } else {
            r := Ok(SchemaObjectsDiff(tables.value, views.value, udfs.value));
          }
        }
      }
    }

    /** One pass of the loop of `compare_schemas`: a schema whose objects
        differ is recorded with its differences, which carries the loop's
        result and statements from the names before `names[i]` to the
        names up to and including it. */
    method CompareSchemaAt(d1: Entries, d2: Entries, names: seq<string>, i: nat,
                           found: seq<(string, SchemaObjectsDiff)>, ghost start: seq<Statement>)
      returns (r: Result<seq<(string, SchemaObjectsDiff)>>)
      requires Valid() && i < |names|
      requires Run([], names[..i], SchemaStepOf(Switches(), d1, d2)).result == Ok(found)
      requires issued == start + Run([], names[..i], SchemaStepOf(Switches(), d1, d2)).appended
      modifies this
      ensures Valid()
      ensures r == Run([], names[..i + 1], SchemaStepOf(Switches(), d1, d2)).result
      ensures issued == start + Run([], names[..i + 1], SchemaStepOf(Switches(), d1, d2)).appended
    {
      SchemaRunNext(Switches(), d1, d2, names, i, start);
      var name := names[i];
      var o := CompareSchemaObjects(Field(d1, name), Field(d2, name), name);
      if o.Err? {
        r := Err(o.error);
      } else if o.value == NoObjects {
        r := Ok(found);
      } else {
        r := Ok(found + [(name, o.value)]);
      }
    }

    /** The loop of `compare_schemas` over the schemas both sides hold. */
    method CompareCommonSchemas(d1: Entries, d2: Entries, names: seq<string>)
      returns (r: Result<seq<(string, SchemaObjectsDiff)>>)
      requires Valid()
      modifies this
      ensures Valid()
      ensures r == Run([], names, SchemaStepOf(Switches(), d1, d2)).result
      ensures issued == old(issued) + Run([], names, SchemaStepOf(Switches(), d1, d2)).appended
    {
      ghost var start := issued;
      var found: seq<(string, SchemaObjectsDiff)> := [];
      var i := 0;
      while i < |names|
        invariant 0 <= i <= |names|
        invariant Valid()
        invariant Run([], names[..i], SchemaStepOf(Switches(), d1, d2)).result == Ok(found)
        invariant issued == start + Run([], names[..i], SchemaStepOf(Switches(), d1, d2)).appended
      {
        var next := CompareSchemaAt(d1, d2, names, i, found, start);
        if next.Err? {
          RunStops([], names, SchemaStepOf(Switches(), d1, d2), i + 1);
          assert names[..|names|] == names;
          return next;
        }
        found := next.value;
        i := i + 1;
      }
      assert names[..i] == names;
      return Ok(found);
    }

    /** `compare_schemas`: the set comparison of the schema names when
        switched on, then the objects of every schema both hold. */
    method CompareSchemas(schema1: Obj, schema2: Obj)
      returns (r: Result<SchemasDiff>)
      requires Valid()
      modifies this
      ensures Valid()
      ensures r == SchemasOutcome(Switches(), schema1, schema2).result
      ensures issued == old(issued) + SchemasOutcome(Switches(), schema1, schema2).appended
    {
      var maps := SchemaMaps(schema1, schema2);
      if maps.Err? {
        r := Err(maps.error);
      } else {
        var (d1, d2) := maps.value;
        var names := if Switches().schemas then CompareSets(KeySet(d1), KeySet(d2), "schemas") else None;
        var found := CompareCommonSchemas(d1, d2, CommonNames(d1, d2));
        if found.Err? {
          r := Err(found.error);
        } else {
          r := Ok(SchemasDiff(names, found.value));
        }
      }
    }
  }
}
