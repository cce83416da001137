/** Result and Option wrappers and the string operations of Python's `str`
    that the rest of the model relies on (join, split, substring test,
    replace, strip, upper, padding, int parsing and decimal rendering). */
module Base {

  datatype Option<T> = None | Some(value: T)

  /** The Python exceptions the modelled code can raise. */
  datatype Error =
    | KeyError(key: string)
    | IndexError
    | TypeError(what: string)
    | AttributeError(what: string)
    | ValueError(what: string)
    | NameError(name: string)
    | QueryFailed
    | NonStringKey

  /** Either a value or the exception that was raised instead. */
  datatype Result<T> = Ok(value: T) | Err(error: Error) {
    predicate IsFailure() { Err? }

    function PropagateFailure<U>(): Result<U>
      requires Err?
    {
      Err(error)
    }

    function Extract(): T
      requires Ok?
    {
      value
    }
  }

  // ---------------------------------------------------------------------
  // Loops that stop at the first exception

  /** The state after running `step` over `xs` from the left, or the first
      exception a step raises. */
  function Fold<A, X>(a0: A, xs: seq<X>, step: (A, X) -> Result<A>): Result<A>
  {
    if |xs| == 0 then Ok(a0)
    else
      var a :- Fold(a0, xs[..|xs| - 1], step);
      step(a, xs[|xs| - 1])
  }

  /** One more element: the loop runs one more step unless it already
      raised. */
  lemma FoldSnoc<A, X>(a0: A, xs: seq<X>, x: X, step: (A, X) -> Result<A>)
    ensures Fold(a0, xs + [x], step)
      == if Fold(a0, xs, step).Err? then Fold(a0, xs, step) else step(Fold(a0, xs, step).value, x)
  {
    assert (xs + [x])[..|xs|] == xs;
  }

  /** Once a step raises, the loop ends with that exception. */
  lemma {:induction false} FoldStops<A, X>(a0: A, xs: seq<X>, step: (A, X) -> Result<A>, n: nat)
    requires n <= |xs| && Fold(a0, xs[..n], step).Err?
    ensures Fold(a0, xs, step) == Fold(a0, xs[..n], step)
    decreases |xs| - n
  {
    if n < |xs| {
      assert xs[..n + 1][..n] == xs[..n];
      FoldStops(a0, xs, step, n + 1);
    } else {
      assert xs[..n] == xs;
    }
  }

  /** A loop whose every step adds what `f` makes of its item to the end of
      `items` collects, in order, what `f` makes of every item. */
  lemma {:induction false} FoldCollects<A, X, V>(a0: A, xs: seq<X>, step: (A, X) -> Result<A>,
                                                 f: X -> Result<V>, items: A -> seq<V>)
    requires items(a0) == []
    requires forall a, x :: step(a, x).Ok? ==> f(x).Ok? && items(step(a, x).value) == items(a) + [f(x).value]
    requires Fold(a0, xs, step).Ok?
    ensures |items(Fold(a0, xs, step).value)| == |xs|
    ensures forall k :: 0 <= k < |xs| ==> f(xs[k]) == Ok(items(Fold(a0, xs, step).value)[k])
  {
    if |xs| > 0 {
      var init := xs[..|xs| - 1];
      FoldCollects(a0, init, step, f, items);
      var before := items(Fold(a0, init, step).value);
      var after := items(Fold(a0, xs, step).value);
      assert after == before + [f(xs[|xs| - 1]).value];
      forall k | 0 <= k < |xs| ensures f(xs[k]) == Ok(after[k]) {
        if k < |init| {
          assert xs[k] == init[k];
        }
      }
    }
  }

  /** The loop that runs `step` over `xs`, leaving at the first
      exception. */
  method RunFold<A, X>(a0: A, xs: seq<X>, step: (A, X) -> Result<A>) returns (r: Result<A>)
    ensures r == Fold(a0, xs, step)
  {
    var a := a0;
    var i := 0;
    while i < |xs|
      invariant 0 <= i <= |xs|
      invariant Fold(a0, xs[..i], step) == Ok(a)
    {
      assert xs[..i + 1][..i] == xs[..i];
      var next := step(a, xs[i]);
      if next.Err? {
        FoldStops(a0, xs, step, i + 1);
        return Err(next.error);
      }
      a := next.value;
      i := i + 1;
    }
    assert xs[..i] == xs;
    return Ok(a);
  }

  /** Where a loop whose exception is caught by the caller leaves its
      state: the state after the last step that completed, and whether
      every step completed. */
  datatype Partial<A> = Partial(state: A, completed: bool)

  /** The state a caught exception leaves behind: `step` run over `xs` up
      to, not including, the first step that raises. */
  function Scan<A, X>(a0: A, xs: seq<X>, step: (A, X) -> Result<A>): (r: Partial<A>)
    ensures r.completed <==> Fold(a0, xs, step).Ok?
    ensures r.completed ==> Fold(a0, xs, step) == Ok(r.state)
  {
    if |xs| == 0 then Partial(a0, true)
    else
      var p := Scan(a0, xs[..|xs| - 1], step);
      if !p.completed then p
      else
        match step(p.state, xs[|xs| - 1])
        case Ok(a) => Partial(a, true)
        case Err(_) => Partial(p.state, false)
  }

  /** One more step of a loop that has not raised yet. */
  lemma ScanNext<A, X>(a0: A, xs: seq<X>, step: (A, X) -> Result<A>, i: nat)
    requires i < |xs| && Scan(a0, xs[..i], step).completed
    ensures var p := Scan(a0, xs[..i], step).state;
      var next := step(p, xs[i]);
      Scan(a0, xs[..i + 1], step) == if next.Ok? then Partial(next.value, true) else Partial(p, false)
  {
    assert xs[..i + 1][..i] == xs[..i];
  }

  /** Once a step raises, the state stays where it was. */
  lemma {:induction false} ScanStops<A, X>(a0: A, xs: seq<X>, step: (A, X) -> Result<A>, n: nat)
    requires n <= |xs| && !Scan(a0, xs[..n], step).completed
    ensures Scan(a0, xs, step) == Scan(a0, xs[..n], step)
    decreases |xs| - n
  {
    if n < |xs| {
      assert xs[..n + 1][..n] == xs[..n];
      ScanStops(a0, xs, step, n + 1);
    } else {
      assert xs[..n] == xs;
    }
  }

  /** The same loop, run step by step. */
  method RunScan<A, X>(a0: A, xs: seq<X>, step: (A, X) -> Result<A>) returns (a: A, completed: bool)
    ensures Partial(a, completed) == Scan(a0, xs, step)
  {
    a := a0;
    var i := 0;
    while i < |xs|
      invariant 0 <= i <= |xs|
      invariant Scan(a0, xs[..i], step) == Partial(a, true)
    {
      assert xs[..i + 1][..i] == xs[..i];
      var next := step(a, xs[i]);
      if next.Err? {
        ScanStops(a0, xs, step, i + 1);
        return a, false;
      }
      a := next.value;
      i := i + 1;
    }
    assert xs[..i] == xs;
    return a, true;
  }

  /** A loop whose every step only extends a text extends it overall,
      whether it completes or is cut short. */
  lemma {:induction false} ScanExtends<A, X>(a0: A, xs: seq<X>, step: (A, X) -> Result<A>, text: A -> string)
    requires forall a, x :: step(a, x).Ok? ==> IsPrefix(text(a), text(step(a, x).value))
    ensures IsPrefix(text(a0), text(Scan(a0, xs, step).state))
  {
    if |xs| > 0 {
      ScanExtends(a0, xs[..|xs| - 1], step, text);
      var p := Scan(a0, xs[..|xs| - 1], step);
      if p.completed && step(p.state, xs[|xs| - 1]).Ok? {
        var t0 := text(a0);
        var t1 := text(p.state);
        var t2 := text(step(p.state, xs[|xs| - 1]).value);
        assert t1[..|t0|] == t0;
        assert t2[..|t1|] == t1;
        assert t2[..|t0|] == t2[..|t1|][..|t0|];
      }
    }
  }

  // ---------------------------------------------------------------------
  // Joining and counting

  /** Appending in two rounds, one after the other, is appending once. */
  lemma AppendAssoc<T>(log: seq<T>, a: seq<T>, b: seq<T>)
    ensures log + a + b == log + (a + b)
  {
  }

  /** Python `sep.join(parts)`. */
  function Join(parts: seq<string>, sep: string): string
  {
    if |parts| == 0 then ""
    else if |parts| == 1 then parts[0]
    else parts[0] + sep + Join(parts[1..], sep)
  }

  /** Python `"".join(parts)`. */
  function Concat(parts: seq<string>): string
  {
    if |parts| == 0 then "" else parts[0] + Concat(parts[1..])
  }

  lemma {:induction false} ConcatAppend(parts: seq<string>, last: string)
    ensures Concat(parts + [last]) == Concat(parts) + last
  {
    if |parts| == 0 {
      assert parts + [last] == [last];
    } else {
      assert (parts + [last])[1..] == parts[1..] + [last];
      ConcatAppend(parts[1..], last);
    }
  }

  /** The text `f` makes of each item, in item order. */
  function Each<X>(xs: seq<X>, f: X -> string): (r: seq<string>)
    ensures |r| == |xs|
    ensures forall k :: 0 <= k < |xs| ==> r[k] == f(xs[k])
  {
    if |xs| == 0 then [] else Each(xs[..|xs| - 1], f) + [f(xs[|xs| - 1])]
  }

  /** `a` followed by the text `t`, or the exception that making `t` raised. */
  function AppendText(a: string, t: Result<string>): Result<string>
  {
    if t.Ok? then Ok(a + t.value) else Err(t.error)
  }

  /** The texts `f` makes of the items, in item order, or the first
      exception `f` raises. */
  function Texts<X>(xs: seq<X>, f: X -> Result<string>): (r: Result<seq<string>>)
    ensures r.Ok? ==> |r.value| == |xs|
  {
    if |xs| == 0 then Ok([])
    else
      var init :- Texts(xs[..|xs| - 1], f);
      var last :- f(xs[|xs| - 1]);
      Ok(init + [last])
  }

  /** Each text is the one `f` makes of the item at the same position. */
  lemma {:induction false} TextsAt<X>(xs: seq<X>, f: X -> Result<string>)
    requires Texts(xs, f).Ok?
    ensures forall k :: 0 <= k < |xs| ==> f(xs[k]) == Ok(Texts(xs, f).value[k])
  {
    if |xs| > 0 {
      var init := xs[..|xs| - 1];
      TextsAt(init, f);
      forall k | 0 <= k < |xs|
        ensures f(xs[k]) == Ok(Texts(xs, f).value[k])
      {
        if k < |init| {
          assert xs[k] == init[k];
        }
      }
    }
  }

  /** A loop whose step appends the text `f` makes of each item writes the
      texts of all items in order, and raises exactly when `f` raises on
      some item. */
  lemma {:induction false} FoldAppendsTexts<X>(w: string, xs: seq<X>, f: X -> Result<string>,
                                               step: (string, X) -> Result<string>)
    requires forall a: string, x: X :: step(a, x) == AppendText(a, f(x))
    ensures Fold(w, xs, step).Ok? <==> Texts(xs, f).Ok?
    ensures Texts(xs, f).Ok? ==> Fold(w, xs, step) == Ok(w + Concat(Texts(xs, f).value))
  {
    if |xs| == 0 {
      assert w + Concat([]) == w;
    } else {
      var init := xs[..|xs| - 1];
      var x := xs[|xs| - 1];
      FoldAppendsTexts(w, init, f, step);
      if Texts(init, f).Ok? {
        var ts := Texts(init, f).value;
        var a := w + Concat(ts);
        assert Fold(w, xs, step) == step(a, x);
        if f(x).Ok? {
          ConcatAppend(ts, f(x).value);
          assert w + Concat(ts + [f(x).value]) == a + f(x).value;
        }
      }
    }
  }

  lemma {:induction false} JoinAppend(parts: seq<string>, last: string, sep: string)
    requires |parts| > 0
    ensures Join(parts + [last], sep) == Join(parts, sep) + sep + last
  {
    if |parts| == 1 {
      assert parts + [last] == [parts[0], last];
    } else {
      assert (parts + [last])[1..] == parts[1..] + [last];
      JoinAppend(parts[1..], last, sep);
    }
  }

  /** Number of occurrences of `c` in `s`. */
  function Count(s: string, c: char): nat
  {
    if |s| == 0 then 0 else (if s[0] == c then 1 else 0) + Count(s[1..], c)
  }

  // ---------------------------------------------------------------------
  // Substrings and replacement

  predicate IsPrefix(p: string, s: string)
  {
    |p| <= |s| && s[..|p|] == p
  }

  /** A string begins with its own first part. */
  lemma PrefixOfConcat(p: string, rest: string)
    ensures IsPrefix(p, p + rest)
  {
    assert (p + rest)[..|p|] == p;
  }

  /** Python `sub in s` on two strings. */
  predicate Contains(s: string, sub: string)
    decreases |s|
  {
    IsPrefix(sub, s) || (|s| > 0 && Contains(s[1..], sub))
  }

  lemma {:induction false} ContainsAt(s: string, sub: string, i: nat)
    requires i + |sub| <= |s| && s[i..i + |sub|] == sub
    ensures Contains(s, sub)
    decreases i
  {
    if i > 0 {
      assert s[1..][i - 1..i - 1 + |sub|] == sub;
      ContainsAt(s[1..], sub, i - 1);
    }
  }

  /** Python `s.replace(pat, repl)` for a non-empty `pat`: every
      non-overlapping occurrence, scanning from the left, is replaced. */
  function ReplaceAll(s: string, pat: string, repl: string): string
    requires |pat| > 0
    decreases |s|
  {
    if |s| == 0 then ""
    else if IsPrefix(pat, s) then repl + ReplaceAll(s[|pat|..], pat, repl)
    else [s[0]] + ReplaceAll(s[1..], pat, repl)
  }

  lemma {:induction false} ReplaceAllAbsent(s: string, pat: string, repl: string)
    requires |pat| > 0 && !Contains(s, pat)
    ensures ReplaceAll(s, pat, repl) == s
    decreases |s|
  {
    if |s| > 0 {
      ReplaceAllAbsent(s[1..], pat, repl);
    }
  }

  // ---------------------------------------------------------------------
  // Character classes, strip and upper

  /** The characters `str.isspace()` accepts in the ASCII range. */
  predicate IsSpace(c: char)
  {
    c == ' ' || c == '\t' || c == '\n' || c == '\r' || c == '\U{000B}' || c == '\U{000C}'
    || c == '\U{001C}' || c == '\U{001D}' || c == '\U{001E}' || c == '\U{001F}'
  }

  function StripLeft(s: string): (r: string)
    ensures |r| <= |s|
  {
    if |s| > 0 && IsSpace(s[0]) then StripLeft(s[1..]) else s
  }

  function StripRight(s: string): (r: string)
    ensures |r| <= |s|
  {
    if |s| > 0 && IsSpace(s[|s| - 1]) then StripRight(s[..|s| - 1]) else s
  }

  /** Python `s.strip()`: no white space at either end of the result, which
      is a contiguous piece of `s`. */
  function Strip(s: string): (r: string)
  {
    StripRight(StripLeft(s))
  }

  lemma {:induction false} StripLeftShape(s: string)
    ensures var r := StripLeft(s); (|r| > 0 ==> !IsSpace(r[0])) && r == s[|s| - |r|..]
    ensures forall k :: 0 <= k < |s| - |StripLeft(s)| ==> IsSpace(s[k])
  {
    if |s| > 0 && IsSpace(s[0]) {
      StripLeftShape(s[1..]);
    }
  }

  lemma {:induction false} StripRightShape(s: string)
    ensures var r := StripRight(s); (|r| > 0 ==> !IsSpace(r[|r| - 1])) && r == s[..|r|]
    ensures forall k :: |StripRight(s)| <= k < |s| ==> IsSpace(s[k])
  {
    if |s| > 0 && IsSpace(s[|s| - 1]) {
      StripRightShape(s[..|s| - 1]);
    }
  }

  /** Stripping leaves no white space at either end and drops only white
      space. */
  lemma StripShape(s: string)
    ensures var r := Strip(s); |r| > 0 ==> !IsSpace(r[0]) && !IsSpace(r[|r| - 1])
    ensures Strip(s) == StripLeft(s)[..|Strip(s)|]
  {
    var l := StripLeft(s);
    StripLeftShape(s);
    StripRightShape(l);
  }

  /** A string with no white space at either end is its own strip. */
  lemma StripUnchanged(s: string)
    requires |s| > 0 ==> !IsSpace(s[0]) && !IsSpace(s[|s| - 1])
    ensures Strip(s) == s
  {
    assert StripLeft(s) == s;
  }

  /** Python `str.upper()` on ASCII letters. */
  function UpperChar(c: char): char
  {
    if 'a' <= c <= 'z' then (c as int - 32) as char else c
  }

  function Upper(s: string): (r: string)
    ensures |r| == |s|
    ensures forall k :: 0 <= k < |s| ==> r[k] == UpperChar(s[k])
  {
    if |s| == 0 then "" else [UpperChar(s[0])] + Upper(s[1..])
  }

  // ---------------------------------------------------------------------
  // Splitting on one character

  /** Python `s.split(c)` for a one-character separator: the pieces between
      the separators, in order; a string without `c` gives one piece. */
  function Split(s: string, c: char): (parts: seq<string>)
    ensures |parts| >= 1
  {
    if |s| == 0 then [""]
    else
      var rest := Split(s[1..], c);
      if s[0] == c then [""] + rest else [[s[0]] + rest[0]] + rest[1..]
  }

  /** There is one more piece than there are separators. */
  lemma {:induction false} SplitCount(s: string, c: char)
    ensures |Split(s, c)| == Count(s, c) + 1
  {
    if |s| > 0 {
      SplitCount(s[1..], c);
    }
  }

  /** No piece contains the separator. */
  lemma {:induction false} SplitPiecesClean(s: string, c: char)
    ensures forall k :: 0 <= k < |Split(s, c)| ==> c !in Split(s, c)[k]
  {
    if |s| > 0 {
      SplitPiecesClean(s[1..], c);
    }
  }

  /** Joining the pieces with the separator gives back the string. */
  lemma {:induction false} SplitJoin(s: string, c: char)
    ensures Join(Split(s, c), [c]) == s
  {
    if |s| > 0 {
      var rest := Split(s[1..], c);
      SplitJoin(s[1..], c);
      if s[0] == c {
        assert ([""] + rest)[1..] == rest;
        if |rest| == 1 {
          assert Join([""] + rest, [c]) == "" + [c] + rest[0];
        } else {
          assert Join([""] + rest, [c]) == "" + [c] + Join(rest, [c]);
        }
        assert s == [s[0]] + s[1..];
      } else {
        var parts := [[s[0]] + rest[0]] + rest[1..];
        if |rest| == 1 {
          assert Join(parts, [c]) == [s[0]] + rest[0];
        } else {
          assert parts[1..] == rest[1..];
          assert Join(rest, [c]) == rest[0] + [c] + Join(rest[1..], [c]);
          assert Join(parts, [c]) == [s[0]] + rest[0] + [c] + Join(rest[1..], [c]);
        }
        assert s == [s[0]] + s[1..];
      }
    }
  }

  /** Splitting the join of separator-free words gives back the words. */
  lemma {:induction false} SplitJoinWords(words: seq<string>, c: char)
    requires |words| >= 1 && forall k :: 0 <= k < |words| ==> c !in words[k]
    ensures Split(Join(words, [c]), c) == words
  {
    if |words| == 1 {
      SplitNone(words[0], c);
    } else {
      SplitJoinWords(words[1..], c);
      var rest := Join(words[1..], [c]);
      assert Join(words, [c]) == words[0] + ([c] + rest);
      SplitPrefix(words[0], [c] + rest, c);
      assert ([c] + rest)[1..] == rest;
      assert Split([c] + rest, c) == [""] + Split(rest, c);
      assert words == [words[0]] + words[1..];
    }
  }

  /** Splitting a string made of two separator-free pieces around one
      separator gives back exactly those two pieces. */
  lemma SplitPair(a: string, b: string, c: char)
    requires c !in a && c !in b
    ensures Split(a + [c] + b, c) == [a, b]
  {
    SplitPrefix(a, [c] + b, c);
    assert a + [c] + b == a + ([c] + b);
    SplitNone(b, c);
    assert ([c] + b)[1..] == b;
  }

  lemma {:induction false} SplitNone(s: string, c: char)
    requires c !in s
    ensures Split(s, c) == [s]
  {
    if |s| > 0 {
      SplitNone(s[1..], c);
      assert s == [s[0]] + s[1..];
    }
  }

  lemma {:induction false} SplitPrefix(a: string, rest: string, c: char)
    requires c !in a && |rest| > 0 && rest[0] == c
    ensures Split(a + rest, c) == [a] + Split(rest, c)[1..]
  {
    if |a| == 0 {
      assert a + rest == rest;
      assert Split(rest, c) == [""] + Split(rest[1..], c);
    } else {
      assert (a + rest)[1..] == a[1..] + rest;
      SplitPrefix(a[1..], rest, c);
      assert a == [a[0]] + a[1..];
    }
  }

  /** Splitting around one separator splits each side on its own. */
  lemma {:induction false} SplitAround(a: string, b: string, c: char)
    ensures Split(a + [c] + b, c) == Split(a, c) + Split(b, c)
  {
    if |a| == 0 {
      assert a + [c] + b == [c] + b;
      assert ([c] + b)[1..] == b;
    } else {
      assert (a + [c] + b)[1..] == a[1..] + [c] + b;
      SplitAround(a[1..], b, c);
    }
  }

  /** The pieces of every part, part after part. */
  function Pieces(parts: seq<string>, c: char): seq<string>
  {
    if |parts| == 0 then [] else Split(parts[0], c) + Pieces(parts[1..], c)
  }

  lemma {:induction false} PiecesAppend(a: seq<string>, b: seq<string>, c: char)
    ensures Pieces(a + b, c) == Pieces(a, c) + Pieces(b, c)
  {
    if |a| == 0 {
      assert a + b == b;
    } else {
      assert (a + b)[1..] == a[1..] + b;
      PiecesAppend(a[1..], b, c);
    }
  }

  /** Parts free of the separator are their own pieces. */
  lemma {:induction false} PiecesClean(parts: seq<string>, c: char)
    requires forall k :: 0 <= k < |parts| ==> c !in parts[k]
    ensures Pieces(parts, c) == parts
  {
    if |parts| > 0 {
      SplitNone(parts[0], c);
      PiecesClean(parts[1..], c);
    }
  }

  /** Splitting a join on the separator gives the pieces of the parts. */
  lemma {:induction false} SplitJoinPieces(parts: seq<string>, c: char)
    requires |parts| > 0
    ensures Split(Join(parts, [c]), c) == Pieces(parts, c)
  {
    if |parts| > 1 {
      SplitJoinPieces(parts[1..], c);
      SplitAround(parts[0], Join(parts[1..], [c]), c);
    }
  }

  lemma {:induction false} CountAppend(a: string, b: string, c: char)
    ensures Count(a + b, c) == Count(a, c) + Count(b, c)
  {
    if |a| == 0 {
      assert a + b == b;
    } else {
      assert (a + b)[1..] == a[1..] + b;
      CountAppend(a[1..], b, c);
    }
  }

  /** A character in no part is in no concatenation of the parts. */
  lemma {:induction false} ConcatClean(parts: seq<string>, c: char)
    requires forall k :: 0 <= k < |parts| ==> c !in parts[k]
    ensures c !in Concat(parts)
  {
    if |parts| > 0 {
      ConcatClean(parts[1..], c);
    }
  }

  /** A character in no part and not in the separator is not in the join. */
  lemma {:induction false} JoinClean(parts: seq<string>, sep: string, c: char)
    requires c !in sep && forall k :: 0 <= k < |parts| ==> c !in parts[k]
    ensures c !in Join(parts, sep)
  {
    if |parts| > 1 {
      JoinClean(parts[1..], sep, c);
    }
  }

  // ---------------------------------------------------------------------
  // Integers as text

  function DigitChar(d: nat): char
    requires d < 10
  {
    "0123456789"[d]
  }

  function NatToString(n: nat): (r: string)
    ensures |r| > 0
    decreases n
  {
    if n < 10 then [DigitChar(n)] else NatToString(n / 10) + [DigitChar(n % 10)]
  }

  /** Python `str(i)` for an int. */
  function IntToString(i: int): string
  {
    if i < 0 then "-" + NatToString(-i) else NatToString(i)
  }

  predicate IsDigit(c: char)
  {
    '0' <= c <= '9'
  }

  /** Digits with single underscores between them, as Python's int literal
      grammar allows. */
  predicate IsDigitRun(s: string)
  {
    |s| > 0 && IsDigit(s[0]) && IsDigit(s[|s| - 1])
    && (forall k :: 0 <= k < |s| ==> IsDigit(s[k]) || s[k] == '_')
    && (forall k :: 0 <= k < |s| - 1 ==> s[k] == '_' ==> s[k + 1] != '_')
  }

  /** Whether Python's `int(s)` succeeds on a string: surrounding white
      space, an optional sign, then ASCII digits (underscores allowed
      between digits). */
  predicate IsIntLiteral(s: string)
  {
    var t := Strip(s);
    if |t| > 0 && (t[0] == '+' || t[0] == '-') then IsDigitRun(t[1..]) else IsDigitRun(t)
  }

  // ---------------------------------------------------------------------
  // Newline removal and padding

  /** The string with every `\n` and `\r` removed and nothing else
      changed. */
  function RemoveNewlines(s: string): (r: string)
    ensures '\n' !in r && '\r' !in r
    ensures |r| == |s| - Count(s, '\n') - Count(s, '\r')
  {
    if |s| == 0 then ""
    else if s[0] == '\n' || s[0] == '\r' then RemoveNewlines(s[1..])
    else [s[0]] + RemoveNewlines(s[1..])
  }

  lemma {:induction false} RemoveNewlinesAppend(a: string, b: string)
    ensures RemoveNewlines(a + b) == RemoveNewlines(a) + RemoveNewlines(b)
  {
    if |a| > 0 {
      assert (a + b)[1..] == a[1..] + b;
      RemoveNewlinesAppend(a[1..], b);
    } else {
      assert a + b == b;
    }
  }

  /** A string without line breaks is left as it is. */
  lemma {:induction false} RemoveNewlinesNone(s: string)
    requires '\n' !in s && '\r' !in s
    ensures RemoveNewlines(s) == s
  {
    if |s| > 0 {
      RemoveNewlinesNone(s[1..]);
      assert s == [s[0]] + s[1..];
    }
  }

  function Repeat(s: string, n: nat): (r: string)
    ensures |r| == n * |s|
  {
    if n == 0 then "" else s + Repeat(s, n - 1)
  }

  /** Python `f"{s:<{n}}"`: `s` followed by spaces up to width `n`. */
  function PadRight(s: string, n: nat): (r: string)
    ensures |r| == if |s| >= n then |s| else n
    ensures r[..|s|] == s
  {
    if |s| >= n then s else s + Repeat(" ", n - |s|)
  }

  function Max(a: nat, b: nat): nat
  {
    if a >= b then a else b
  }
}
