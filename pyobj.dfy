/** The Python values that flow through the metastore tools: metadata cells,
    the nested schema dictionaries the builders produce and the comparator
    reads. Dictionaries keep insertion order, as Python's do, and have
    string keys. */
module PyObj {
  import opened Base

  datatype Obj =
    | Null
    | Bool(b: bool)
    | Int(i: int)
    | Str(s: string)
    | List(items: seq<Obj>)
    | Tuple(items: seq<Obj>)
    | Dict(entries: seq<(string, Obj)>)

  type Entries = seq<(string, Obj)>

  // ---------------------------------------------------------------------
  // Dictionaries

  function Keys(d: Entries): (ks: seq<string>)
    ensures |ks| == |d|
    ensures forall k :: 0 <= k < |d| ==> ks[k] == d[k].0
  {
    if |d| == 0 then [] else [d[0].0] + Keys(d[1..])
  }

  predicate HasKey(d: Entries, key: string)
  {
    exists k :: 0 <= k < |d| && d[k].0 == key
  }

  lemma KeySetCons(e: (string, Obj), d: Entries)
    ensures KeySet([e] + d) == {e.0} + KeySet(d)
  {
    forall key ensures HasKey([e] + d, key) <==> key == e.0 || HasKey(d, key) {
      assert ([e] + d)[0] == e;
      if HasKey(d, key) {
        var k :| 0 <= k < |d| && d[k].0 == key;
        assert ([e] + d)[k + 1] == d[k];
      }
      if HasKey([e] + d, key) && key != e.0 {
        var k :| 0 <= k < |[e] + d| && ([e] + d)[k].0 == key;
        assert d[k - 1].0 == key;
      }
    }
  }

  function KeySet(d: Entries): (ks: set<string>)
    ensures forall key :: key in ks <==> HasKey(d, key)
  {
    set k | 0 <= k < |d| :: d[k].0
  }

  /** Python `d.get(key)`: the value stored under `key`, if any. */
  function Lookup(d: Entries, key: string): (r: Option<Obj>)
    ensures r.Some? <==> HasKey(d, key)
  {
    if |d| == 0 then None
    else if d[0].0 == key then Some(d[0].1)
    else
      assert forall k :: 1 <= k < |d| ==> d[k] == d[1..][k - 1];
      Lookup(d[1..], key)
  }

  /** Python `d[key] = value`: an existing key keeps its place and takes the
      new value; a new key goes at the end. */
  function Set(d: Entries, key: string, value: Obj): (r: Entries)
    ensures Lookup(r, key) == Some(value)
    ensures forall other :: other != key ==> Lookup(r, other) == Lookup(d, other)
    ensures KeySet(r) == KeySet(d) + {key}
    ensures |r| == if HasKey(d, key) then |d| else |d| + 1
  {
    if |d| == 0 then [(key, value)]
    else if d[0].0 == key then
      KeySetCons(d[0], d[1..]);
      KeySetCons((key, value), d[1..]);
      assert d == [d[0]] + d[1..];
      [(key, value)] + d[1..]
    else
      var rest := Set(d[1..], key, value);
      KeySetCons(d[0], d[1..]);
      KeySetCons(d[0], rest);
      assert d == [d[0]] + d[1..];
      assert HasKey(d, key) <==> HasKey(d[1..], key);
      [d[0]] + rest
  }

  /** A dictionary value built from scratch by successive assignments. */
  function FromPairs(pairs: Entries): (r: Entries)
    ensures KeySet(r) == KeySet(pairs)
    ensures forall key :: Lookup(r, key) == LastValue(pairs, key)
  {
    if |pairs| == 0 then []
    else
      var init := FromPairs(pairs[..|pairs| - 1]);
      assert KeySet(pairs) == KeySet(pairs[..|pairs| - 1]) + {pairs[|pairs| - 1].0};
      Set(init, pairs[|pairs| - 1].0, pairs[|pairs| - 1].1)
  }

  /** One more assignment at the end. */
  lemma FromPairsSnoc(pairs: Entries, last: (string, Obj))
    ensures FromPairs(pairs + [last]) == Set(FromPairs(pairs), last.0, last.1)
  {
    assert (pairs + [last])[..|pairs|] == pairs;
  }

  /** The value assigned last to `key` in a series of assignments. */
  function LastValue(pairs: Entries, key: string): Option<Obj>
  {
    if |pairs| == 0 then None
    else if pairs[|pairs| - 1].0 == key then Some(pairs[|pairs| - 1].1)
    else LastValue(pairs[..|pairs| - 1], key)
  }

  // ---------------------------------------------------------------------
  // Python operations on values; each reports the exception Python would
  // raise.

  /** Python truth value. */
  predicate Truthy(o: Obj)
  {
    match o
    case Null => false
    case Bool(b) => b
    case Int(i) => i != 0
    case Str(s) => s != ""
    case List(items) => items != []
    case Tuple(items) => items != []
    case Dict(d) => d != []
  }

  /** Python `==`: dictionaries compare regardless of insertion order. */
  predicate PyEq(a: Obj, b: Obj)
    decreases a
  {
    match (a, b)
    case (Null, Null) => true
    case (Bool(x), Bool(y)) => x == y
    case (Int(x), Int(y)) => x == y
    case (Str(x), Str(y)) => x == y
    case (List(xs), List(ys)) => |xs| == |ys| && forall k :: 0 <= k < |xs| ==> PyEq(xs[k], ys[k])
    case (Tuple(xs), Tuple(ys)) => |xs| == |ys| && forall k :: 0 <= k < |xs| ==> PyEq(xs[k], ys[k])
    case (Dict(xs), Dict(ys)) =>
      |xs| == |ys| && KeySet(xs) == KeySet(ys)
      && forall k :: 0 <= k < |xs| ==> Lookup(ys, xs[k].0).Some? && PyEq(xs[k].1, Lookup(ys, xs[k].0).value)
    case _ => false
  }

  lemma {:induction false} LookupAt(d: Entries, k: nat)
    requires k < |d| && forall j :: 0 <= j < k ==> d[j].0 != d[k].0
    ensures Lookup(d, d[k].0) == Some(d[k].1)
  {
    if k > 0 {
      LookupAt(d[1..], k - 1);
    }
  }

  /** Keys of a dictionary built by `Set` are distinct. */
  predicate DistinctKeys(d: Entries)
  {
    forall j, k :: 0 <= j < k < |d| ==> d[j].0 != d[k].0
  }

  /** Python `==` is reflexive on the values the model builds. */
  lemma {:induction false} PyEqRefl(a: Obj)
    requires WellFormed(a)
    ensures PyEq(a, a)
    decreases a
  {
    match a
    case List(xs) =>
      forall k | 0 <= k < |xs| ensures PyEq(xs[k], xs[k]) { PyEqRefl(xs[k]); }
    case Tuple(xs) =>
      forall k | 0 <= k < |xs| ensures PyEq(xs[k], xs[k]) { PyEqRefl(xs[k]); }
    case Dict(xs) =>
      forall k | 0 <= k < |xs|
        ensures Lookup(xs, xs[k].0).Some? && PyEq(xs[k].1, Lookup(xs, xs[k].0).value)
      {
        LookupAt(xs, k);
        PyEqRefl(xs[k].1);
      }
    case _ =>
  }

  /** Every dictionary inside the value has distinct keys. */
  predicate WellFormed(a: Obj)
    decreases a
  {
    match a
    case List(xs) => forall k :: 0 <= k < |xs| ==> WellFormed(xs[k])
    case Tuple(xs) => forall k :: 0 <= k < |xs| ==> WellFormed(xs[k])
    case Dict(xs) => DistinctKeys(xs) && forall k :: 0 <= k < |xs| ==> WellFormed(xs[k].1)
    case _ => true
  }

  /** A Python list of strings. */
  function StrList(texts: seq<string>): (r: Obj)
    ensures r.List? && |r.items| == |texts|
    ensures forall k :: 0 <= k < |texts| ==> r.items[k] == Str(texts[k])
  {
    List(seq(|texts|, k requires 0 <= k < |texts| => Str(texts[k])))
  }

  /** Python `o[key]` with a string key. */
  function GetItem(o: Obj, key: string): (r: Result<Obj>)
    ensures o.Dict? && HasKey(o.entries, key) ==> r == Ok(Lookup(o.entries, key).value)
    ensures o.Dict? && !HasKey(o.entries, key) ==> r == Err(KeyError(key))
    ensures !o.Dict? ==> r.Err?
  {
    match o
    case Dict(d) => (match Lookup(d, key) case Some(v) => Ok(v) case None => Err(KeyError(key)))
    case _ => Err(TypeError("subscript with a string"))
  }

  /** Python `o.get(key, default)`. */
  function GetOr(o: Obj, key: string, default: Obj): (r: Result<Obj>)
    ensures o.Dict? <==> r.Ok?
    ensures o.Dict? ==> r.value == (if HasKey(o.entries, key) then Lookup(o.entries, key).value else default)
  {
    match o
    case Dict(d) => (match Lookup(d, key) case Some(v) => Ok(v) case None => Ok(default))
    case _ => Err(AttributeError("get"))
  }

  /** Python `row.get(col)` on a record built from a row. */
  function Field(row: Entries, col: string): Obj
  {
    match Lookup(row, col) case Some(v) => v case None => Null
  }

  /** Python `d.get(key, default)` on a dictionary's entries. */
  function FieldOr(d: Entries, key: string, default: Obj): (r: Obj)
    ensures HasKey(d, key) ==> Some(r) == Lookup(d, key)
    ensures !HasKey(d, key) ==> r == default
  {
    match Lookup(d, key) case Some(v) => v case None => default
  }

  /** A value stored in a well-formed dictionary is well formed. */
  lemma {:induction false} LookupWellFormed(d: Entries, key: string)
    requires WellFormed(Dict(d)) && HasKey(d, key)
    ensures WellFormed(Lookup(d, key).value)
  {
    if d[0].0 != key {
      assert WellFormed(Dict(d[1..])) by {
        assert forall k :: 0 <= k < |d[1..]| ==> d[1..][k] == d[k + 1];
      }
      LookupWellFormed(d[1..], key);
    }
  }

  /** `row.get(col)` on a well-formed dictionary is well formed. */
  lemma FieldWellFormed(d: Entries, key: string)
    requires WellFormed(Dict(d))
    ensures WellFormed(Field(d, key))
  {
    if HasKey(d, key) {
      LookupWellFormed(d, key);
    }
  }

  /** The keys listed by `Keys` are exactly the keys the dictionary holds,
      each once when the dictionary's keys are distinct. */
  lemma KeysExact(d: Entries)
    ensures forall key :: key in Keys(d) <==> HasKey(d, key)
    ensures DistinctKeys(d) ==> forall j, k :: 0 <= j < k < |Keys(d)| ==> Keys(d)[j] != Keys(d)[k]
  {
    forall key | HasKey(d, key) ensures key in Keys(d) {
      var k :| 0 <= k < |d| && d[k].0 == key;
      assert Keys(d)[k] == key;
    }
  }

  /** The items Python's `for` visits: the elements of a list or tuple,
      the characters of a string, the keys of a dictionary. */
  function Items(o: Obj): (r: Result<seq<Obj>>)
    ensures o.List? || o.Tuple? ==> r == Ok(o.items)
    ensures r.Ok? <==> o.List? || o.Tuple? || o.Str? || o.Dict?
  {
    match o
    case List(xs) => Ok(xs)
    case Tuple(xs) => Ok(xs)
    case Str(s) => Ok(seq(|s|, k requires 0 <= k < |s| => Str([s[k]])))
    case Dict(d) => Ok(seq(|d|, k requires 0 <= k < |d| => Str(d[k].0)))
    case _ => Err(TypeError("object is not iterable"))
  }

  /** Python `len(o)`: the number of items `for` visits. */
  function Len(o: Obj): (r: Result<nat>)
    ensures r.Ok? <==> Items(o).Ok?
    ensures r.Ok? ==> r.value == |Items(o).value|
  {
    match o
    case List(xs) => Ok(|xs|)
    case Tuple(xs) => Ok(|xs|)
    case Str(s) => Ok(|s|)
    case Dict(d) => Ok(|d|)
    case _ => Err(TypeError("object has no len()"))
  }

  /** Every item of a well-formed container is `in` it. */
  lemma ItemsIn(o: Obj)
    requires WellFormed(o) && Items(o).Ok?
    ensures forall k :: 0 <= k < |Items(o).value| ==> In(Items(o).value[k], o) == Ok(true)
  {
    var xs := Items(o).value;
    forall k | 0 <= k < |xs| ensures In(xs[k], o) == Ok(true) {
      match o
      case List(ys) => PyEqRefl(ys[k]);
      case Tuple(ys) => PyEqRefl(ys[k]);
      case Str(s) =>
        assert s[k..k + 1] == [s[k]];
        ContainsAt(s, [s[k]], k);
      case Dict(d) =>
        assert d[k].0 == xs[k].s;
    }
  }

  /** Python `row[col]` on a record built from a row. */
  function Column(row: Entries, col: string): (r: Result<Obj>)
    ensures r.Ok? <==> HasKey(row, col)
    ensures r.Ok? ==> r.value == Field(row, col)
  {
    match Lookup(row, col) case Some(v) => Ok(v) case None => Err(KeyError(col))
  }

  /** Python `o[i]` with a non-negative integer index. */
  function Index(o: Obj, i: nat): (r: Result<Obj>)
    ensures (o.List? || o.Tuple?) && i < |o.items| ==> r == Ok(o.items[i])
    ensures (o.List? || o.Tuple?) && i >= |o.items| ==> r == Err(IndexError)
  {
    match o
    case List(xs) => if i < |xs| then Ok(xs[i]) else Err(IndexError)
    case Tuple(xs) => if i < |xs| then Ok(xs[i]) else Err(IndexError)
    case Str(s) => if i < |s| then Ok(Str([s[i]])) else Err(IndexError)
    case Dict(_) => Err(KeyError(IntToString(i)))
    case _ => Err(TypeError("not subscriptable"))
  }

  /** Python `needle in container`. */
  function In(needle: Obj, container: Obj): (r: Result<bool>)
    ensures needle.Str? && container.Str? ==> r == Ok(Contains(container.s, needle.s))
  {
    match container
    case Str(s) => if needle.Str? then Ok(Contains(s, needle.s)) else Err(TypeError("in <string>"))
    case List(xs) => Ok(exists k :: 0 <= k < |xs| && PyEq(needle, xs[k]))
    case Tuple(xs) => Ok(exists k :: 0 <= k < |xs| && PyEq(needle, xs[k]))
    case Dict(d) =>
      (match needle
       case Str(s) => Ok(HasKey(d, s))
       case List(_) => Err(TypeError("unhashable type"))
       case Dict(_) => Err(TypeError("unhashable type"))
       case _ => Ok(false))
    case _ => Err(TypeError("argument is not iterable"))
  }

  /** Python `o > 0` for a metadata cell. */
  function Positive(o: Obj): (r: Result<bool>)
    ensures o.Int? ==> r == Ok(o.i > 0)
    ensures o.Null? || o.Str? ==> r.Err?
  {
    match o
    case Int(i) => Ok(i > 0)
    case Bool(b) => Ok(b)
    case _ => Err(TypeError("'>' not supported"))
  }

  /** A metadata cell used as a dictionary key. Name columns of the
      metastore are strings; any other key is outside the model. */
  function AsKey(o: Obj): (r: Result<string>)
    ensures o.Str? <==> r.Ok?
    ensures o.Str? ==> r.value == o.s
  {
    if o.Str? then Ok(o.s) else Err(NonStringKey)
  }

  /** Python `sep.join(o)`. */
  function JoinObj(sep: string, o: Obj): (r: Result<string>)
    ensures o.List? && (forall k :: 0 <= k < |o.items| ==> o.items[k].Str?) ==> r.Ok?
  {
    match o
    case List(xs) => JoinStrings(sep, xs)
    case Tuple(xs) => JoinStrings(sep, xs)
    case Str(s) => Ok(Join(Chars(s), sep))
    case Dict(d) => Ok(Join(Keys(d), sep))
    case _ => Err(TypeError("can only join an iterable"))
  }

  function Chars(s: string): (r: seq<string>)
    ensures |r| == |s|
  {
    if |s| == 0 then [] else [[s[0]]] + Chars(s[1..])
  }

  function JoinStrings(sep: string, xs: seq<Obj>): (r: Result<string>)
    ensures (forall k :: 0 <= k < |xs| ==> xs[k].Str?) <==> r.Ok?
  {
    if forall k :: 0 <= k < |xs| ==> xs[k].Str?
    then Ok(Join(seq(|xs|, k requires 0 <= k < |xs| => xs[k].s), sep))
    else Err(TypeError("sequence item: expected str instance"))
  }

  // ---------------------------------------------------------------------
  // Rendering

  /** Python `repr(s)` of a string: single quotes unless the text holds a
      single quote and no double quote. */
  function ReprStr(s: string): string
  {
    if '\'' in s && '"' !in s then "\"" + s + "\"" else "'" + s + "'"
  }

  /** Python `repr(o)`. */
  function Repr(o: Obj): string
    decreases o
  {
    match o
    case Null => "None"
    case Bool(b) => if b then "True" else "False"
    case Int(i) => IntToString(i)
    case Str(s) => ReprStr(s)
    case List(xs) => "[" + Join(seq(|xs|, k requires 0 <= k < |xs| => Repr(xs[k])), ", ") + "]"
    case Tuple(xs) =>
      "(" + Join(seq(|xs|, k requires 0 <= k < |xs| => Repr(xs[k])), ", ")
      + (if |xs| == 1 then ",)" else ")")
    case Dict(d) =>
      "{" + Join(seq(|d|, k requires 0 <= k < |d| => ReprStr(d[k].0) + ": " + Repr(d[k].1)), ", ") + "}"
  }

  /** Python `str(o)`, which is what an f-string placeholder inserts. */
  function Show(o: Obj): string
  {
    if o.Str? then o.s else Repr(o)
  }

  // ---------------------------------------------------------------------
  // Query rows

  /** Python `dict(zip(cols, row))`: the record of one result row, keyed by
      column name. */
  function Zip(cols: seq<string>, row: seq<Obj>): (r: Entries)
    ensures forall k :: 0 <= k < |cols| && k < |row| ==> HasKey(r, cols[k])
  {
    var n := if |cols| <= |row| then |cols| else |row|;
    var pairs := seq(n, k requires 0 <= k < n => (cols[k], row[k]));
    assert forall k :: 0 <= k < n ==> pairs[k].0 == cols[k] && HasKey(pairs, cols[k]);
    FromPairs(pairs)
  }
}
