/** The csv report of enumdb.py (`write_csv`): one quoted, comma-terminated
    block per reported table, appended to the target's file. Values are not
    escaped. Beside the writer sit a line splitter and a field reader, so
    that what a block holds can be read back. */
module CsvReport {
  import opened Wrappers
  import opened Driver
  import opened Reports

  /** One value as it is written: in double quotes, then a comma. */
  function Quote(x: string): string
  {
    "\"" + x + "\","
  }

  /** A record: every value quoted, in order, with no line end. */
  function Fields(items: seq<string>): string
  {
    if items == [] then "" else Quote(items[0]) + Fields(items[1..])
  }

  /** The data rows, each a record followed by one line end. */
  function Records(rows: seq<Row>): string
  {
    if rows == [] then "" else Fields(rows[0]) + "\n" + Records(rows[1..])
  }

  /** The first line of a block: the heading in double quotes. */
  function TitleLine(database: string, table: string, host: string): string
  {
    "\"" + Heading(table, database, host) + "\""
  }

  /** The text one call of `write_csv` adds to the file. */
  function CsvBlock(columns: seq<string>, data: seq<Row>, database: string, table: string, host: string): string
  {
    TitleLine(database, table, host) + "\n" + Fields(columns) + "\n" + Records(data) + "\n\n\n"
  }

  /** `write_csv`: the file only ever grows, and what is added is the block. */
  function WriteCsv(contents: string, columns: seq<string>, data: seq<Row>, database: string, table: string, host: string): (r: string)
    ensures |r| > |contents|
    ensures r[..|contents|] == contents
    ensures r[|contents|..] == CsvBlock(columns, data, database, table, host)
  {
    contents + CsvBlock(columns, data, database, table, host)
  }

  /** The whole file after the given findings were written, in order. */
  function CsvFile(fs: seq<Finding>, host: string): string
  {
    if fs == [] then ""
    else
      var f := fs[|fs| - 1];
      CsvFile(fs[..|fs| - 1], host) + CsvBlock(f.columns, f.rows, f.database, f.table, host)
  }

  // ---------------------------------------------------------------------
  // Reading a block back

  /** Python's `s.split("\n")`: the pieces between line ends. */
  function Lines(s: string): (r: seq<string>)
    ensures |r| >= 1
  {
    if s == [] then [""]
    else if s[0] == '\n' then [""] + Lines(s[1..])
    else
      var t := Lines(s[1..]);
      [[s[0]] + t[0]] + t[1..]
  }

  /** Position of the first double quote at or after `from`. */
  function NextQuote(s: string, from: nat): (r: Option<nat>)
    requires from <= |s|
    ensures r.Some? ==> from <= r.value < |s| && s[r.value] == '"'
    ensures r.Some? ==> forall k :: from <= k < r.value ==> s[k] != '"'
    ensures r.None? ==> forall k :: from <= k < |s| ==> s[k] != '"'
    decreases |s| - from
  {
    if from == |s| then None
    else if s[from] == '"' then Some(from)
    else NextQuote(s, from + 1)
  }

  /** Reads a record: a sequence of `"value",` pieces. */
  function Unquote(line: string): Option<seq<string>>
    decreases |line|
  {
    if line == [] then Some([])
    else if line[0] != '"' then None
    else
      match NextQuote(line, 1)
      case None => None
      case Some(j) =>
        if j + 1 < |line| && line[j + 1] == ',' then
          match Unquote(line[j + 2..])
          case None => None
          case Some(rest) => Some([line[1..j]] + rest)
        else None
  }

  /** Reads every line as a record. */
  function UnquoteAll(lines: seq<string>): Option<seq<Row>>
  {
    if lines == [] then Some([])
    else
      match (Unquote(lines[0]), UnquoteAll(lines[1..]))
      case (Some(r), Some(rest)) => Some([r] + rest)
      case _ => None
  }

  /** Reads one block: its heading, its column names and its rows. */
  function ReadBlock(block: string): Option<(string, seq<string>, seq<Row>)>
  {
    var lines := Lines(block);
    if |lines| < 6 || lines[|lines| - 4..] != ["", "", "", ""] then None
    else
      var head := lines[0];
      if |head| < 2 || head[0] != '"' || head[|head| - 1] != '"' then None
      else
        match (Unquote(lines[1]), UnquoteAll(lines[2..|lines| - 4]))
        case (Some(cols), Some(rows)) => Some((head[1..|head| - 1], cols, rows))
        case _ => None
  }

  /** The records of the rows, one per row. */
  function RecordLines(rows: seq<Row>): (r: seq<string>)
    ensures |r| == |rows|
  {
    if rows == [] then [] else [Fields(rows[0])] + RecordLines(rows[1..])
  }

  /** No value contains the character `c`. */
  ghost predicate Avoids(items: seq<string>, c: char)
  {
    forall i :: 0 <= i < |items| ==> c !in items[i]
  }

  /** Values that survive the unescaped format: no quote, no line end. */
  ghost predicate Plain(items: seq<string>)
  {
    Avoids(items, '"') && Avoids(items, '\n')
  }

  lemma {:induction false} FieldsAvoids(items: seq<string>, c: char)
    requires c != '"' && c != ',' && Avoids(items, c)
    ensures c !in Fields(items)
  {
    if items != [] {
      FieldsAvoids(items[1..], c);
      assert Fields(items) == "\"" + items[0] + "\"," + Fields(items[1..]);
    }
  }

  lemma {:induction false} LinesAppend(a: string, b: string)
    requires '\n' !in a
    ensures Lines(a + "\n" + b) == [a] + Lines(b)
  {
    if a == [] {
      assert a + "\n" + b == "\n" + b;
      assert ("\n" + b)[1..] == b;
    } else {
      var s := a + "\n" + b;
      assert s[0] == a[0];
      assert s[1..] == a[1..] + "\n" + b;
      LinesAppend(a[1..], b);
      assert [a[0]] + a[1..] == a;
    }
  }

  /** Records as the first record, a line end and the rest. */
  lemma RecordsShape(rows: seq<Row>, tail: string)
    requires rows != []
    ensures Records(rows) + tail == Fields(rows[0]) + "\n" + (Records(rows[1..]) + tail)
  {
  }

  /** The first record of the rows is the first line. */
  lemma RecordsStep(rows: seq<Row>, tail: string)
    requires rows != [] && Avoids(rows[0], '\n')
    ensures Lines(Records(rows) + tail) == [Fields(rows[0])] + Lines(Records(rows[1..]) + tail)
  {
    FieldsAvoids(rows[0], '\n');
    RecordsShape(rows, tail);
    LinesAppend(Fields(rows[0]), Records(rows[1..]) + tail);
  }

  lemma {:induction false} LinesOfRecords(rows: seq<Row>, tail: string)
    requires forall i :: 0 <= i < |rows| ==> Avoids(rows[i], '\n')
    ensures Lines(Records(rows) + tail) == RecordLines(rows) + Lines(tail)
  {
    if rows != [] {
      RecordsStep(rows, tail);
      assert forall i :: 0 <= i < |rows| - 1 ==> rows[1..][i] == rows[i + 1];
      LinesOfRecords(rows[1..], tail);
      var first := Fields(rows[0]);
      assert [first] + (RecordLines(rows[1..]) + Lines(tail)) == ([first] + RecordLines(rows[1..])) + Lines(tail);
    } else {
      assert Records(rows) + tail == tail;
    }
  }

  /** In a quoted value the next quote after the opening one closes it. */
  lemma ClosingQuote(x: string, rest: string)
    requires '"' !in x
    ensures var line := Quote(x) + rest;
      NextQuote(line, 1) == Some(|x| + 1) && line[1..|x| + 1] == x
      && line[|x| + 2] == ',' && line[|x| + 3..] == rest
  {
    var line := Quote(x) + rest;
    assert forall k :: 1 <= k < |x| + 1 ==> line[k] == x[k - 1];
    assert line[|x| + 1] == '"';
    assert line[1..|x| + 1] == x;
    assert line[|x| + 3..] == rest;
  }

  /** Reading a record takes its first quoted value off the front. */
  lemma UnquoteStep(x: string, rest: string)
    requires '"' !in x
    ensures Unquote(Quote(x) + rest) == match Unquote(rest) case None => None case Some(r) => Some([x] + r)
  {
    ClosingQuote(x, rest);
  }

  /** A record of plain values reads back as those values. */
  lemma {:induction false} UnquoteFields(items: seq<string>)
    requires Avoids(items, '"')
    ensures Unquote(Fields(items)) == Some(items)
  {
    if items != [] {
      assert '"' !in items[0];
      UnquoteStep(items[0], Fields(items[1..]));
      UnquoteFields(items[1..]);
      assert [items[0]] + items[1..] == items;
    }
  }

  lemma {:induction false} UnquoteRecords(rows: seq<Row>)
    requires forall i :: 0 <= i < |rows| ==> Plain(rows[i])
    ensures UnquoteAll(RecordLines(rows)) == Some(rows)
  {
    if rows != [] {
      UnquoteFields(rows[0]);
      UnquoteRecords(rows[1..]);
      assert RecordLines(rows)[1..] == RecordLines(rows[1..]);
      assert [rows[0]] + rows[1..] == rows;
    }
  }

  /** The title line holds no line end. */
  lemma TitleOneLine(database: string, table: string, host: string)
    requires '\n' !in table && '\n' !in database && '\n' !in host
    ensures '\n' !in TitleLine(database, table, host)
  {
  }

  /** The three newlines closing a block end three empty lines and start a
      fourth. */
  lemma TrailerLines()
    ensures Lines("\n\n\n") == ["", "", "", ""]
  {
    assert "\n\n\n"[1..] == "\n\n";
    assert "\n\n"[1..] == "\n";
    assert "\n"[1..] == "";
  }

  /** A block as three lines and the rest, grouped from the right. */
  lemma BlockShape(columns: seq<string>, data: seq<Row>, database: string, table: string, host: string)
    ensures CsvBlock(columns, data, database, table, host) ==
      TitleLine(database, table, host) + "\n" + (Fields(columns) + "\n" + (Records(data) + "\n\n\n"))
  {
  }

  /** Two single lines in front of a text add those two lines in front of
      the text's lines. */
  lemma TwoLinesBefore(a: string, b: string, rest: string, tail: seq<string>)
    requires '\n' !in a && '\n' !in b && Lines(rest) == tail
    ensures Lines(a + "\n" + (b + "\n" + rest)) == [a, b] + tail
  {
    LinesAppend(a, b + "\n" + rest);
    LinesAppend(b, rest);
  }

  /** The lines of a block: the title, the column record, one record per
      row, then the three blank separator lines and the empty piece after
      the final line end. Only line ends inside values would break this
      layout; double quotes do not. */
  lemma CsvBlockLines(columns: seq<string>, data: seq<Row>, database: string, table: string, host: string)
    requires '\n' !in table && '\n' !in database && '\n' !in host
    requires Avoids(columns, '\n') && forall i :: 0 <= i < |data| ==> Avoids(data[i], '\n')
    ensures Lines(CsvBlock(columns, data, database, table, host)) ==
      [TitleLine(database, table, host), Fields(columns)] + RecordLines(data) + ["", "", "", ""]
  {
    var head, cols := TitleLine(database, table, host), Fields(columns);
    var rest := Records(data) + "\n\n\n";
    var tail := RecordLines(data) + ["", "", "", ""];
    LinesOfRecords(data, "\n\n\n");
    TrailerLines();
    TitleOneLine(database, table, host);
    FieldsAvoids(columns, '\n');
    TwoLinesBefore(head, cols, rest, tail);
    BlockShape(columns, data, database, table, host);
    assert [head, cols] + tail == [head, cols] + RecordLines(data) + ["", "", "", ""];
  }

  /** A block of plain values reads back as the heading, the column names
      and the rows that were written. */
  lemma CsvBlockRoundTrip(columns: seq<string>, data: seq<Row>, database: string, table: string, host: string)
    requires '\n' !in table && '\n' !in database && '\n' !in host
    requires Plain(columns) && forall i :: 0 <= i < |data| ==> Plain(data[i])
    ensures ReadBlock(CsvBlock(columns, data, database, table, host)) == Some((Heading(table, database, host), columns, data))
  {
    var head := TitleLine(database, table, host);
    var lines := Lines(CsvBlock(columns, data, database, table, host));
    CsvBlockLines(columns, data, database, table, host);
    assert lines[0] == head;
    assert lines[1] == Fields(columns);
    assert lines[2..|lines| - 4] == RecordLines(data);
    assert lines[|lines| - 4..] == ["", "", "", ""];
    UnquoteFields(columns);
    UnquoteRecords(data);
    assert head[1..|head| - 1] == Heading(table, database, host);
  }

  /** Values are written unescaped: a value holding `","` is
      indistinguishable from two values. */
  lemma QuotesNotEscaped(a: string, b: string)
    ensures Fields([a + "\",\"" + b]) == Fields([a, b])
  {
    assert [a, b][1..] == [b];
    assert [b][1..] == [] && [a + "\",\"" + b][1..] == [];
    assert Fields([b]) == Quote(b) + "" == Quote(b);
    calc {
      Fields([a + "\",\"" + b]);
      "\"" + (a + "\",\"" + b) + "\",";
      "\"" + a + "\"," + ("\"" + b + "\",");
      Quote(a) + Quote(b);
      Fields([a, b]);
    }
  }
}
