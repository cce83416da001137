/** The report text builders: a query result as an HTML table or a
    Markdown table, and the padded two-column Markdown table of a metrics
    dictionary. Only the text is modelled; writing it to a file and the
    logger are not. */
module ReportWriter {
  import opened Base
  import opened PyObj

  /** `[str(value) for value in row]`. */
  function Strs(values: seq<Obj>): (r: seq<string>)
    ensures |r| == |values|
    ensures forall k :: 0 <= k < |values| ==> r[k] == Show(values[k])
  {
    if |values| == 0 then [] else Strs(values[..|values| - 1]) + [Show(values[|values| - 1])]
  }

  /** No value of any record prints with a line break. */
  predicate RecordsOneLine(records: seq<seq<Obj>>)
  {
    forall i, j :: 0 <= i < |records| && 0 <= j < |records[i]| ==> '\n' !in Show(records[i][j])
  }

  predicate ColumnsOneLine(columns: seq<string>)
  {
    forall k :: 0 <= k < |columns| ==> '\n' !in columns[k]
  }

  /** Upper-casing never makes a line break. */
  lemma UpperOneLine(s: string)
    requires '\n' !in s
    ensures '\n' !in Upper(s)
  {
  }

  // ---------------------------------------------------------------------
  // tuples_to_html_table

  function HtmlHeading(queryName: string): string
  {
    "<h2> " + queryName + " </h2>"
  }

  const EmptyNotice := "<p><strong>Results empty</strong></p>"

  /** The text for a query with no records. */
  function HtmlEmpty(queryName: string): string
  {
    "\n" + HtmlHeading(queryName) + "\n" + EmptyNotice
  }

  /** One `<th>` cell per column, upper-cased, in column order. */
  function HeaderCells(columns: seq<string>): (r: seq<string>)
    ensures |r| == |columns|
    ensures forall k :: 0 <= k < |columns| ==> r[k] == "<th>" + Upper(columns[k]) + "</th>"
  {
    if |columns| == 0 then []
    else HeaderCells(columns[..|columns| - 1]) + ["<th>" + Upper(columns[|columns| - 1]) + "</th>"]
  }

  function HtmlHeaderRow(columns: seq<string>): string
  {
    "<thead><tr>" + Concat(HeaderCells(columns)) + "</tr></thead>"
  }

  /** One `<td>` cell per value, in value order. */
  function DataCells(values: seq<string>): (r: seq<string>)
    ensures |r| == |values|
    ensures forall k :: 0 <= k < |values| ==> r[k] == "<td>" + values[k] + "</td>"
  {
    if |values| == 0 then []
    else DataCells(values[..|values| - 1]) + ["<td>" + values[|values| - 1] + "</td>"]
  }

  function HtmlRow(record: seq<Obj>): string
  {
    "<tr>" + Concat(DataCells(Strs(record))) + "</tr>"
  }

  /** One `<tr>` per record, in record order. */
  function HtmlRows(records: seq<seq<Obj>>): (r: seq<string>)
    ensures |r| == |records|
    ensures forall k :: 0 <= k < |records| ==> r[k] == HtmlRow(records[k])
  {
    if |records| == 0 then [] else HtmlRows(records[..|records| - 1]) + [HtmlRow(records[|records| - 1])]
  }

  function HtmlOpenTag(queryName: string): string
  {
    "<table id=\"" + queryName + "\" class=\"display\">"
  }

  /** The lines of the `<table>` block: the opening tag, the header row,
      the body with all rows on one line, the closing tags. */
  function HtmlTableLines(queryName: string, headerRow: string, rows: seq<string>): seq<string>
  {
    [HtmlOpenTag(queryName), headerRow, "<tbody>", Concat(rows), "</tbody>", "</table>"]
  }

  function HtmlTitle(queryName: string): string
  {
    "\n" + HtmlHeading(queryName) + "\n"
  }

  const HtmlFooter := "<br><br>"

  /** `tuples_to_html_table`: the title, the table block and the footer,
      joined by line breaks. */
  function HtmlTable(queryName: string, columns: seq<string>, records: seq<seq<Obj>>): string
  {
    if |records| == 0 then HtmlEmpty(queryName)
    else
      var table := Join(HtmlTableLines(queryName, HtmlHeaderRow(columns), HtmlRows(records)), "\n");
      Join([HtmlTitle(queryName), table, HtmlFooter], "\n")
  }

  /** `tuples_to_html_table`, building the row list with the source's loop. */
  method TuplesToHtmlTable(queryName: string, columns: seq<string>, records: seq<seq<Obj>>)
    returns (html: string)
    ensures html == HtmlTable(queryName, columns, records)
  {
    if |records| == 0 {
      return HtmlEmpty(queryName);
    }
    var headerRow := HtmlHeaderRow(columns);
    var rows: seq<string> := [];
    var i := 0;
    while i < |records|
      invariant 0 <= i <= |records|
      invariant rows == HtmlRows(records[..i])
    {
      assert records[..i + 1][..i] == records[..i];
      rows := rows + [HtmlRow(records[i])];
      i := i + 1;
    }
    assert records[..i] == records;
    var table := Join(HtmlTableLines(queryName, headerRow, rows), "\n");
    html := Join([HtmlTitle(queryName), table, HtmlFooter], "\n");
  }

  /** Two lines read back as themselves. */
  lemma TwoLines(a: string, b: string)
    requires '\n' !in a && '\n' !in b
    ensures Split(a + "\n" + b, '\n') == [a, b]
  {
    SplitAround(a, b, '\n');
    SplitNone(a, '\n');
    SplitNone(b, '\n');
  }

  /** Three lines read back as themselves. */
  lemma ThreeLines(a: string, b: string, d: string)
    requires '\n' !in a && '\n' !in b && '\n' !in d
    ensures Split(a + "\n" + b + "\n" + d, '\n') == [a, b, d]
  {
    SplitAround(a + "\n" + b, d, '\n');
    TwoLines(a, b);
    SplitNone(d, '\n');
  }

  lemma HtmlTitleLines(queryName: string)
    requires '\n' !in queryName
    ensures Split(HtmlTitle(queryName), '\n') == ["", HtmlHeading(queryName), ""]
  {
    var line := HtmlHeading(queryName);
    ThreeLines("", line, "");
    assert HtmlTitle(queryName) == "" + "\n" + line + "\n" + "";
  }

  /** With no records the text is the empty-result fragment: a blank line,
      the title and the notice, one per line. */
  lemma HtmlEmptyLines(queryName: string, columns: seq<string>)
    requires '\n' !in queryName
    ensures HtmlTable(queryName, columns, []) == HtmlEmpty(queryName)
    ensures Split(HtmlTable(queryName, columns, []), '\n') == ["", HtmlHeading(queryName), EmptyNotice]
  {
    var line := HtmlHeading(queryName);
    FixedTextsOneLine();
    ThreeLines("", line, EmptyNotice);
    assert HtmlEmpty(queryName) == "" + "\n" + line + "\n" + EmptyNotice;
  }

  /** None of the fixed texts holds a line break. */
  lemma FixedTextsOneLine()
    ensures '\n' !in EmptyNotice && '\n' !in HtmlFooter && '\n' !in MarkdownNotice
    ensures '\n' !in " | " && '\n' !in ":---"
  {
  }

  lemma TextsOneLine(record: seq<Obj>)
    requires forall j :: 0 <= j < |record| ==> '\n' !in Show(record[j])
    ensures forall j :: 0 <= j < |Strs(record)| ==> '\n' !in Strs(record)[j]
  {
  }

  lemma HtmlRowOneLine(record: seq<Obj>)
    requires forall j :: 0 <= j < |record| ==> '\n' !in Show(record[j])
    ensures '\n' !in HtmlRow(record)
  {
    TextsOneLine(record);
    ConcatClean(DataCells(Strs(record)), '\n');
  }

  lemma HtmlRowsOneLine(records: seq<seq<Obj>>)
    requires RecordsOneLine(records)
    ensures '\n' !in Concat(HtmlRows(records))
  {
    var rows := HtmlRows(records);
    forall k | 0 <= k < |rows|
      ensures '\n' !in rows[k]
    {
      HtmlRowOneLine(records[k]);
    }
    ConcatClean(rows, '\n');
  }

  lemma HtmlHeaderOneLine(columns: seq<string>)
    requires ColumnsOneLine(columns)
    ensures '\n' !in HtmlHeaderRow(columns)
  {
    var cells := HeaderCells(columns);
    forall k | 0 <= k < |cells|
      ensures '\n' !in cells[k]
    {
      UpperOneLine(columns[k]);
    }
    ConcatClean(cells, '\n');
  }

  /** When no name or value holds a line break, the text reads back line by
      line as: a blank line, the title, a blank line, the opening tag, the
      header row, `<tbody>`, every record's row on one line, the closing
      tags and the footer. */
  lemma {:induction false} HtmlTableLinesRead(queryName: string, columns: seq<string>, records: seq<seq<Obj>>)
    requires |records| > 0 && '\n' !in queryName
    requires ColumnsOneLine(columns) && RecordsOneLine(records)
    ensures Split(HtmlTable(queryName, columns, records), '\n')
         == ["", HtmlHeading(queryName), ""]
            + HtmlTableLines(queryName, HtmlHeaderRow(columns), HtmlRows(records))
            + [HtmlFooter]
  {
    var lines := HtmlTableLines(queryName, HtmlHeaderRow(columns), HtmlRows(records));
    HtmlHeaderOneLine(columns);
    HtmlRowsOneLine(records);
    assert forall k :: 0 <= k < |lines| ==> '\n' !in lines[k];
    SplitJoinPieces(lines, '\n');
    PiecesClean(lines, '\n');
    HtmlTitleLines(queryName);
    JoinThreeRead(HtmlTitle(queryName), Join(lines, "\n"), HtmlFooter);
  }

  /** Three texts joined by line breaks read back as the lines of each,
      when the last is one line. */
  lemma JoinThreeRead(a: string, b: string, d: string)
    requires '\n' !in d
    ensures Split(Join([a, b, d], "\n"), '\n') == Split(a, '\n') + Split(b, '\n') + [d]
  {
    assert [a, b, d][1..] == [b, d] && [b, d][1..] == [d];
    assert Join([b, d], "\n") == b + "\n" + d;
    assert Join([a, b, d], "\n") == a + "\n" + (b + "\n" + d);
    SplitAround(a, b + "\n" + d, '\n');
    SplitAround(b, d, '\n');
    SplitNone(d, '\n');
  }

  // ---------------------------------------------------------------------
  // tuples_to_markdown_table

  function MarkdownHeading(queryName: string): string
  {
    "## " + queryName
  }

  const MarkdownNotice := "> ** Results empty**"

  function MarkdownEmpty(queryName: string): string
  {
    MarkdownHeading(queryName) + "\n" + MarkdownNotice
  }

  /** The column names, upper-cased, in order. */
  function UpperAll(columns: seq<string>): (r: seq<string>)
    ensures |r| == |columns|
    ensures forall k :: 0 <= k < |columns| ==> r[k] == Upper(columns[k])
  {
    if |columns| == 0 then [] else UpperAll(columns[..|columns| - 1]) + [Upper(columns[|columns| - 1])]
  }

  /** One alignment marker per column. */
  function Markers(n: nat): (r: seq<string>)
    ensures |r| == n
    ensures forall k :: 0 <= k < n ==> r[k] == ":---"
  {
    if n == 0 then [] else Markers(n - 1) + [":---"]
  }

  function MarkdownSeparator(n: nat): string
  {
    Join(Markers(n), " | ")
  }

  function MarkdownRow(record: seq<Obj>): string
  {
    Join(Strs(record), " | ")
  }

  /** One line per record, in record order. */
  function MarkdownRows(records: seq<seq<Obj>>): (r: seq<string>)
    ensures |r| == |records|
    ensures forall k :: 0 <= k < |records| ==> r[k] == MarkdownRow(records[k])
  {
    if |records| == 0 then [] else MarkdownRows(records[..|records| - 1]) + [MarkdownRow(records[|records| - 1])]
  }

  /** `tuples_to_markdown_table`: title, header row, separator, the rows and
      the footer, joined by line breaks. */
  function MarkdownTable(queryName: string, columns: seq<string>, records: seq<seq<Obj>>): string
  {
    if |records| == 0 then MarkdownEmpty(queryName)
    else
      Join([MarkdownHeading(queryName) + "\n", Join(UpperAll(columns), " | "), MarkdownSeparator(|columns|)]
           + MarkdownRows(records) + ["\n\n"], "\n")
  }

  /** `tuples_to_markdown_table`, building the row list with the source's
      loop. */
  method TuplesToMarkdownTable(queryName: string, columns: seq<string>, records: seq<seq<Obj>>)
    returns (md: string)
    ensures md == MarkdownTable(queryName, columns, records)
  {
    if |records| == 0 {
      return MarkdownEmpty(queryName);
    }
    var headerRow := Join(UpperAll(columns), " | ");
    var separator := MarkdownSeparator(|columns|);
    var rows: seq<string> := [];
    var i := 0;
    while i < |records|
      invariant 0 <= i <= |records|
      invariant rows == MarkdownRows(records[..i])
    {
      assert records[..i + 1][..i] == records[..i];
      rows := rows + [MarkdownRow(records[i])];
      i := i + 1;
    }
    assert records[..i] == records;
    md := Join([MarkdownHeading(queryName) + "\n", headerRow, separator] + rows + ["\n\n"], "\n");
  }

  /** With no records the text is the title line and the notice line. */
  lemma MarkdownEmptyLines(queryName: string, columns: seq<string>)
    requires '\n' !in queryName
    ensures MarkdownTable(queryName, columns, []) == MarkdownEmpty(queryName)
    ensures Split(MarkdownTable(queryName, columns, []), '\n') == [MarkdownHeading(queryName), MarkdownNotice]
  {
    TwoLines(MarkdownHeading(queryName), MarkdownNotice);
  }

  /** The separator holds one `:---` per column and one `|` between each
      two of them, and nothing else with a colon or a bar. */
  lemma {:induction false} SeparatorCounts(n: nat)
    ensures Count(MarkdownSeparator(n), ':') == n
    ensures Count(MarkdownSeparator(n), '|') == if n == 0 then 0 else n - 1
  {
    assert Count(":---", ':') == 1 by {
      assert ":---"[1..] == "---" && "---"[1..] == "--" && "--"[1..] == "-" && "-"[1..] == "";
    }
    assert Count(":---", '|') == 0 by {
      assert ":---"[1..] == "---" && "---"[1..] == "--" && "--"[1..] == "-" && "-"[1..] == "";
    }
    if n > 1 {
      SeparatorCounts(n - 1);
      var init := Markers(n - 1);
      assert Markers(n) == init + [":---"];
      JoinAppend(init, ":---", " | ");
      var head := Join(init, " | ") + " | ";
      CountAppend(Join(init, " | "), " | ", ':');
      CountAppend(Join(init, " | "), " | ", '|');
      CountAppend(head, ":---", ':');
      CountAppend(head, ":---", '|');
      assert Count(" | ", ':') == 0 && Count(" | ", '|') == 1 by {
        assert " | "[1..] == "| " && "| "[1..] == " " && " "[1..] == "";
      }
    } else if n == 1 {
      assert Markers(1) == [":---"];
    }
  }

  /** The footer is three empty lines. */
  lemma FooterLines()
    ensures Split("\n\n", '\n') == ["", "", ""]
  {
  }

  /** The parts of the Markdown table read back as the lines of the first
      part, the one-line parts in order, and the lines of the footer. */
  lemma {:induction false} MarkdownParts(first: string, headerRow: string, separator: string, rows: seq<string>, footer: string)
    requires '\n' !in headerRow && '\n' !in separator
    requires forall k :: 0 <= k < |rows| ==> '\n' !in rows[k]
    ensures Pieces([first, headerRow, separator] + rows + [footer], '\n')
         == Split(first, '\n') + [headerRow, separator] + rows + Split(footer, '\n')
  {
    var head := [first, headerRow, separator];
    PiecesAppend(head + rows, [footer], '\n');
    PiecesAppend(head, rows, '\n');
    PiecesClean(rows, '\n');
    assert head[1..] == [headerRow, separator];
    PiecesClean([headerRow, separator], '\n');
    assert Pieces([footer], '\n') == Split(footer, '\n') + Pieces([], '\n');
  }

  /** When no name or value holds a line break, the text reads back line by
      line as: the title, a blank line, the upper-cased header, the
      separator, one line per record, and three blank lines. */
  lemma MarkdownTableLines(queryName: string, columns: seq<string>, records: seq<seq<Obj>>)
    requires |records| > 0 && '\n' !in queryName
    requires ColumnsOneLine(columns) && RecordsOneLine(records)
    ensures Split(MarkdownTable(queryName, columns, records), '\n')
         == [MarkdownHeading(queryName), "", Join(UpperAll(columns), " | "), MarkdownSeparator(|columns|)]
            + MarkdownRows(records) + ["", "", ""]
  {
    var title := MarkdownHeading(queryName);
    var header := Join(UpperAll(columns), " | ");
    var separator := MarkdownSeparator(|columns|);
    var rows := MarkdownRows(records);
    MarkdownHeaderOneLine(columns);
    MarkdownRowsOneLine(records);
    var parts := [title + "\n", header, separator] + rows + ["\n\n"];
    SplitJoinPieces(parts, '\n');
    MarkdownParts(title + "\n", header, separator, rows, "\n\n");
    TwoLines(title, "");
    assert title + "\n" + "" == title + "\n";
    FooterLines();
    assert [title, ""] + [header, separator] == [title, "", header, separator];
  }

  lemma MarkdownHeaderOneLine(columns: seq<string>)
    requires ColumnsOneLine(columns)
    ensures '\n' !in Join(UpperAll(columns), " | ")
    ensures '\n' !in MarkdownSeparator(|columns|)
  {
    var upper := UpperAll(columns);
    forall k | 0 <= k < |upper|
      ensures '\n' !in upper[k]
    {
      UpperOneLine(columns[k]);
    }
    FixedTextsOneLine();
    JoinClean(upper, " | ", '\n');
    JoinClean(Markers(|columns|), " | ", '\n');
  }

  lemma MarkdownRowsOneLine(records: seq<seq<Obj>>)
    requires RecordsOneLine(records)
    ensures forall k :: 0 <= k < |MarkdownRows(records)| ==> '\n' !in MarkdownRows(records)[k]
  {
    var rows := MarkdownRows(records);
    forall k | 0 <= k < |rows|
      ensures '\n' !in rows[k]
    {
      TextsOneLine(records[k]);
      JoinClean(Strs(records[k]), " | ", '\n');
    }
  }

  // ---------------------------------------------------------------------
  // write_md_file: the table text

  /** Python `max(len(t) for t in texts)`: `ValueError` on no texts. */
  function MaxLen(texts: seq<string>): (r: Result<nat>)
    ensures r.Ok? <==> |texts| > 0
    ensures r.Ok? ==> forall k :: 0 <= k < |texts| ==> |texts[k]| <= r.value
    ensures r.Ok? ==> exists k :: 0 <= k < |texts| && |texts[k]| == r.value
  {
    if |texts| == 0 then Err(ValueError("max() arg is an empty sequence"))
    else if |texts| == 1 then Ok(|texts[0]|)
    else
      var rest := MaxLen(texts[..|texts| - 1]).value;
      var last := |texts[|texts| - 1]|;
      var m := Max(rest, last);
      assert |texts[|texts| - 1]| == last;
      Ok(m)
  }

  /** `str(value)` of each value of the dictionary, in order. */
  function ValueTexts(data: Entries): (r: seq<string>)
    ensures |r| == |data|
    ensures forall k :: 0 <= k < |data| ==> r[k] == Show(data[k].1)
  {
    if |data| == 0 then [] else ValueTexts(data[..|data| - 1]) + [Show(data[|data| - 1].1)]
  }

  const MetricsHeader := "| METRIC | VALUE |\n"

  function MetricsSeparator(keyWidth: nat, valueWidth: nat): string
  {
    "|---" + Repeat("-", keyWidth) + "|---" + Repeat("-", valueWidth) + "|\n"
  }

  function MetricsRow(key: string, value: Obj, keyWidth: nat, valueWidth: nat): string
  {
    "| " + PadRight(key, keyWidth) + " | " + PadRight(Show(value), valueWidth) + " |\n"
  }

  /** The rows of the table, one per entry, in dictionary order. */
  function MetricsRows(data: Entries, keyWidth: nat, valueWidth: nat): (r: seq<string>)
    ensures |r| == |data|
    ensures forall k :: 0 <= k < |data| ==> r[k] == MetricsRow(data[k].0, data[k].1, keyWidth, valueWidth)
  {
    Each(data, (e: (string, Obj)) => MetricsRow(e.0, e.1, keyWidth, valueWidth))
  }

  /** One more row of the loop. */
  lemma MetricsRowsNext(data: Entries, keyWidth: nat, valueWidth: nat, i: nat)
    requires i < |data|
    ensures Concat(MetricsRows(data[..i + 1], keyWidth, valueWidth))
         == Concat(MetricsRows(data[..i], keyWidth, valueWidth)) + MetricsRow(data[i].0, data[i].1, keyWidth, valueWidth)
  {
    assert data[..i + 1][..i] == data[..i];
    ConcatAppend(MetricsRows(data[..i], keyWidth, valueWidth), MetricsRow(data[i].0, data[i].1, keyWidth, valueWidth));
  }

  /** The table `write_md_file` writes, or the `ValueError` of an empty
      dictionary. */
  function MetricsTable(data: Entries): Result<string>
  {
    var keyWidth :- MaxLen(Keys(data));
    var valueWidth :- MaxLen(ValueTexts(data));
    Ok(MetricsHeader + MetricsSeparator(keyWidth, valueWidth) + Concat(MetricsRows(data, keyWidth, valueWidth)))
  }

  /** The table text of `write_md_file`, accumulated row by row. */
  method MetricsTableText(data: Entries) returns (r: Result<string>)
    ensures r == MetricsTable(data)
  {
    var keyWidth := MaxLen(Keys(data));
    if keyWidth.Err? {
      return Err(keyWidth.error);
    }
    // The values are as many as the keys, so their maximum exists too.
    var valueWidth := MaxLen(ValueTexts(data));
    var table := MetricsHeader;
    table := table + MetricsSeparator(keyWidth.value, valueWidth.value);
    ghost var top := table;
    var i := 0;
    while i < |data|
      invariant 0 <= i <= |data|
      invariant table == top + Concat(MetricsRows(data[..i], keyWidth.value, valueWidth.value))
    {
      MetricsRowsNext(data, keyWidth.value, valueWidth.value, i);
      AppendAssoc(top, Concat(MetricsRows(data[..i], keyWidth.value, valueWidth.value)),
                  MetricsRow(data[i].0, data[i].1, keyWidth.value, valueWidth.value));
      table := table + MetricsRow(data[i].0, data[i].1, keyWidth.value, valueWidth.value);
      i := i + 1;
    }
    assert data[..i] == data;
    return Ok(table);
  }

  /** A row is as long as the widths make it when neither text is wider. */
  lemma MetricsRowLength(key: string, value: Obj, keyWidth: nat, valueWidth: nat)
    requires |key| <= keyWidth && |Show(value)| <= valueWidth
    ensures |MetricsRow(key, value, keyWidth, valueWidth)| == keyWidth + valueWidth + 8
    ensures MetricsRow(key, value, keyWidth, valueWidth)[2..2 + |key|] == key
  {
    var padded := PadRight(key, keyWidth);
    assert MetricsRow(key, value, keyWidth, valueWidth)[2..2 + |key|] == padded[..|key|];
  }

  /** `write_md_file` raises on an empty dictionary; otherwise every data
      row has the same length, since keys are padded to the longest key and
      values to the longest value, and starts with its key; the separator
      is two characters longer than the rows. */
  lemma {:induction false} MetricsTableAligned(data: Entries)
    ensures MetricsTable(data).Err? <==> |data| == 0
    ensures |data| == 0 ==> MetricsTable(data) == Err(ValueError("max() arg is an empty sequence"))
    ensures |data| > 0 ==>
      var keyWidth := MaxLen(Keys(data)).value;
      var valueWidth := MaxLen(ValueTexts(data)).value;
      var rows := MetricsRows(data, keyWidth, valueWidth);
      && MetricsTable(data) == Ok(MetricsHeader + MetricsSeparator(keyWidth, valueWidth) + Concat(rows))
      && |MetricsSeparator(keyWidth, valueWidth)| == keyWidth + valueWidth + 10
      && forall k :: 0 <= k < |data| ==>
           |rows[k]| == keyWidth + valueWidth + 8 && rows[k][2..2 + |data[k].0|] == data[k].0
  {
    if |data| > 0 {
      var keyWidth := MaxLen(Keys(data)).value;
      var valueWidth := MaxLen(ValueTexts(data)).value;
      MetricsRowsAligned(data, keyWidth, valueWidth);
    }
  }

  lemma MetricsRowsAligned(data: Entries, keyWidth: nat, valueWidth: nat)
    requires forall k :: 0 <= k < |data| ==> |Keys(data)[k]| <= keyWidth && |ValueTexts(data)[k]| <= valueWidth
    ensures forall k :: 0 <= k < |data| ==>
      |MetricsRows(data, keyWidth, valueWidth)[k]| == keyWidth + valueWidth + 8
      && MetricsRows(data, keyWidth, valueWidth)[k][2..2 + |data[k].0|] == data[k].0
  {
    forall k | 0 <= k < |data|
      ensures |MetricsRow(data[k].0, data[k].1, keyWidth, valueWidth)| == keyWidth + valueWidth + 8
      ensures MetricsRow(data[k].0, data[k].1, keyWidth, valueWidth)[2..2 + |data[k].0|] == data[k].0
    {
      assert |Keys(data)[k]| <= keyWidth && |ValueTexts(data)[k]| <= valueWidth;
      MetricsRowLength(data[k].0, data[k].1, keyWidth, valueWidth);
    }
  }
}
