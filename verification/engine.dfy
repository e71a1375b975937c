/** The enumeration engine of enumdb.py (class `enum_db`): walks databases
    and tables of one authenticated connection, applies the keyword policy,
    samples matching tables and hands findings to the report sink. The
    run is recorded as a trace of events. */
module Engine {
  import opened Wrappers
  import opened Text
  import opened Config
  import opened Driver
  import opened Reports
  import CsvReport
  import Workbook

  /** The settings one target's enumeration runs with. */
  datatype Options = Options(
    policy: Policy,
    host: string,
    dbType: string,
    report: string,        // "" when no report was requested
    columnSearch: bool,
    verbose: bool)

  /** What a run does, in order. */
  datatype Event =
    | Attempted(user: string, password: string, ok: bool)  // one `connect`
    | Closed(user: string, password: string)               // `con.close()`
    | Sampled(database: string, table: string)             // one `get_data`
    | Matched(hit: string, database: string, table: string) // the match notice for a non-empty sample
    | EmptySet(database: string, table: string)            // the verbose empty-data-set notice
    | Reported(finding: Finding)                           // one `db_reporter` call

  /** The report state of one target: `table_count`, the csv file contents
      and the workbook, which exists only once something was reported. */
  datatype Sink = Sink(tableCount: nat, csv: string, book: Option<Workbook.Book>)

  datatype State = State(sink: Sink, trace: seq<Event>)

  /** Nothing reported, nothing done. */
  const Fresh: State := State(Sink(0, "", None), [])

  /** The workbook exists whenever the workbook path needs an existing one. */
  predicate Ready(o: Options, sink: Sink)
  {
    o.report != "csv" && sink.tableCount > 0 ==> sink.book.Some?
  }

  // ---------------------------------------------------------------------
  // Reading a trace

  /** The values `pick` extracts from the trace, in order. */
  function Collect<T>(t: seq<Event>, pick: Event -> Option<T>): seq<T>
  {
    if t == [] then []
    else
      match pick(t[0])
      case Some(x) => [x] + Collect(t[1..], pick)
      case None => Collect(t[1..], pick)
  }

  lemma {:induction false} CollectAppend<T>(a: seq<Event>, b: seq<Event>, pick: Event -> Option<T>)
    ensures Collect(a + b, pick) == Collect(a, pick) + Collect(b, pick)
  {
    if a != [] {
      assert (a + b)[0] == a[0];
      assert (a + b)[1..] == a[1..] + b;
      CollectAppend(a[1..], b, pick);
    } else {
      assert a + b == b;
    }
  }

  lemma CollectSingle<T>(e: Event, pick: Event -> Option<T>)
    ensures Collect([e], pick) == if pick(e).Some? then [pick(e).value] else []
  {
    assert [e][1..] == [];
  }

  /** Collecting over a short trace, event by event. */
  lemma CollectTwo<T>(e0: Event, e1: Event, pick: Event -> Option<T>)
    ensures Collect([e0, e1], pick) == Collect([e0], pick) + Collect([e1], pick)
  {
    assert [e0, e1] == [e0] + [e1];
    CollectAppend([e0], [e1], pick);
  }

  lemma CollectThree<T>(e0: Event, e1: Event, e2: Event, pick: Event -> Option<T>)
    ensures Collect([e0, e1, e2], pick) == Collect([e0], pick) + Collect([e1], pick) + Collect([e2], pick)
  {
    assert [e0, e1, e2] == [e0] + [e1, e2];
    CollectAppend([e0], [e1, e2], pick);
    CollectTwo(e1, e2, pick);
  }

  function FindingOf(e: Event): Option<Finding>
  {
    if e.Reported? then Some(e.finding) else None
  }

  function SampleOf(e: Event): Option<(string, string)>
  {
    if e.Sampled? then Some((e.database, e.table)) else None
  }

  function HitOf(e: Event): Option<string>
  {
    if e.Matched? then Some(e.hit) else None
  }

  function EmptyOf(e: Event): Option<(string, string)>
  {
    if e.EmptySet? then Some((e.database, e.table)) else None
  }

  function AttemptOf(e: Event): Option<(string, string)>
  {
    if e.Attempted? then Some((e.user, e.password)) else None
  }

  /** The findings handed to the report sink. */
  function Findings(t: seq<Event>): seq<Finding> { Collect(t, FindingOf) }

  /** The (database, table) pairs sampled with `get_data`. */
  function Samples(t: seq<Event>): seq<(string, string)> { Collect(t, SampleOf) }

  /** The keywords (or column names) announced as matches. */
  function Hits(t: seq<Event>): seq<string> { Collect(t, HitOf) }

  /** The (database, table) pairs announced as empty samples. */
  function Empties(t: seq<Event>): seq<(string, string)> { Collect(t, EmptyOf) }

  /** The (user, password) pairs tried with `connect`. */
  function Attempts(t: seq<Event>): seq<(string, string)> { Collect(t, AttemptOf) }

  /** The events come from enumeration alone: no connect, no close. */
  ghost predicate EnumOnly(t: seq<Event>)
  {
    forall i :: 0 <= i < |t| ==> !t[i].Attempted? && !t[i].Closed?
  }

  /** A finding is a real sample: the table's columns and its non-empty rows. */
  ghost predicate Genuine(s: Server, f: Finding)
  {
    f.rows == GetData(s, f.database, f.table) && |f.rows| > 0 && f.columns == GetColumns(s, f.database, f.table)
  }

  // ---------------------------------------------------------------------
  // Reporting

  /** `db_reporter`: csv appends a block; otherwise the workbook is created
      on the first finding (`table_count == 0`), gets an overview row whose
      third column is the host, and a sheet. Either way the count grows by one. */
  function Reporter(o: Options, sink: Sink, f: Finding): (r: Sink)
    requires Ready(o, sink)
    ensures Ready(o, r)
    ensures r.tableCount == sink.tableCount + 1
    ensures o.report == "csv" ==> r.book == sink.book && |r.csv| > |sink.csv| && r.csv[..|sink.csv|] == sink.csv
    ensures o.report != "csv" ==> r.csv == sink.csv && r.book.Some?
  {
    if o.report == "csv" then
      Sink(sink.tableCount + 1, CsvReport.WriteCsv(sink.csv, f.columns, f.rows, f.database, f.table, o.host), sink.book)
    else
      var b := if sink.tableCount == 0 then Workbook.CreateOverview(o.host, o.dbType) else sink.book.value;
      var b1 := Workbook.AddToOverview(b, f.database, f.table, o.host);
      Sink(sink.tableCount + 1, sink.csv, Some(Workbook.CreateSheet(b1, f.database, f.table, f.columns, f.rows, o.host)))
  }

  /** The sink holds exactly the findings `fs`: the count, the csv file
      with one block per finding in order, or a workbook listing them. */
  ghost predicate Renders(o: Options, sink: Sink, fs: seq<Finding>)
  {
    && sink.tableCount == |fs|
    && (o.report == "csv" ==> sink.book.None? && sink.csv == CsvReport.CsvFile(fs, o.host))
    && (o.report != "csv" ==>
          && sink.csv == ""
          && (sink.book.Some? <==> |fs| > 0)
          && (sink.book.Some? ==> Workbook.Lists(sink.book.value, o.host, o.dbType, fs)))
  }

  /** The sink renders the findings its state's trace reports. */
  ghost predicate Sound(o: Options, st: State)
  {
    Renders(o, st.sink, Findings(st.trace))
  }

  lemma FreshIsSound(o: Options)
    ensures Sound(o, Fresh)
  {
  }

  /** Each `db_reporter` call adds its finding to what the sink renders. */
  lemma ReporterRenders(o: Options, sink: Sink, fs: seq<Finding>, f: Finding)
    requires Renders(o, sink, fs)
    ensures Renders(o, Reporter(o, sink, f), fs + [f])
  {
    var fs' := fs + [f];
    assert fs'[..|fs'| - 1] == fs;
    if o.report != "csv" {
      if sink.tableCount == 0 {
        Workbook.OverviewStartsEmpty(o.host, o.dbType);
        Workbook.RecordExtends(Workbook.CreateOverview(o.host, o.dbType), o.host, o.dbType, fs, f);
      } else {
        Workbook.RecordExtends(sink.book.value, o.host, o.dbType, fs, f);
      }
    }
  }

  // ---------------------------------------------------------------------
  // Keyword matching

  function FirstMatchFrom(keywords: seq<string>, lname: string, i: nat): (r: Option<nat>)
    requires i <= |keywords|
    ensures r.Some? ==> i <= r.value < |keywords| && Contains(keywords[r.value], lname)
    ensures r.Some? ==> forall j :: i <= j < r.value ==> !Contains(keywords[j], lname)
    ensures r.None? <==> forall j :: i <= j < |keywords| ==> !Contains(keywords[j], lname)
    decreases |keywords| - i
  {
    if i == |keywords| then None
    else if Contains(keywords[i], lname) then Some(i)
    else FirstMatchFrom(keywords, lname, i + 1)
  }

  /** `keyword in name.lower()`. */
  predicate Mentions(name: string, keyword: string)
  {
    Contains(keyword, Lower(name))
  }

  /** The position of the first keyword, in list order, that occurs in the
      lower-cased name; none when no keyword occurs. */
  function FirstMatch(keywords: seq<string>, name: string): (r: Option<nat>)
    ensures r.Some? ==> r.value < |keywords| && Mentions(name, keywords[r.value])
    ensures r.Some? ==> forall j :: 0 <= j < r.value ==> !Mentions(name, keywords[j])
    ensures r.None? <==> forall j :: 0 <= j < |keywords| ==> !Mentions(name, keywords[j])
  {
    FirstMatchFrom(keywords, Lower(name), 0)
  }

  /** No column from `lo` up to `hi` holds a keyword. */
  predicate NoneMatch(keywords: seq<string>, columns: seq<string>, lo: nat, hi: nat)
    requires hi <= |columns|
  {
    forall i :: lo <= i < hi ==> FirstMatch(keywords, columns[i]).None?
  }

  function FirstColumnMatchFrom(keywords: seq<string>, columns: seq<string>, c: nat): (r: Option<(nat, nat)>)
    requires c <= |columns|
    ensures r.Some? ==> c <= r.value.0 < |columns| && FirstMatch(keywords, columns[r.value.0]) == Some(r.value.1)
    ensures r.Some? ==> NoneMatch(keywords, columns, c, r.value.0)
    ensures r.None? <==> NoneMatch(keywords, columns, c, |columns|)
    decreases |columns| - c
  {
    if c == |columns| then None
    else
      var m := FirstMatch(keywords, columns[c]);
      if m.Some? then Some((c, m.value))
      else
        var r := FirstColumnMatchFrom(keywords, columns, c + 1);
        NoneMatchStep(keywords, columns, c, if r.Some? then r.value.0 else |columns|);
        r
  }

  /** A column without a keyword leaves a quiet range quiet when it joins it. */
  lemma NoneMatchStep(keywords: seq<string>, columns: seq<string>, c: nat, hi: nat)
    requires c < hi <= |columns|
    requires FirstMatch(keywords, columns[c]).None?
    ensures NoneMatch(keywords, columns, c, hi) <==> NoneMatch(keywords, columns, c + 1, hi)
  {
  }

  /** The first (column, keyword) pair that matches, columns outer and
      keywords inner, both in list order. */
  function FirstColumnMatch(keywords: seq<string>, columns: seq<string>): (r: Option<(nat, nat)>)
    ensures r.Some? ==> r.value.0 < |columns| && FirstMatch(keywords, columns[r.value.0]) == Some(r.value.1)
    ensures r.Some? ==> forall i :: 0 <= i < r.value.0 ==> FirstMatch(keywords, columns[i]).None?
    ensures r.None? <==> forall i :: 0 <= i < |columns| ==> FirstMatch(keywords, columns[i]).None?
  {
    FirstColumnMatchFrom(keywords, columns, 0)
  }

  // ---------------------------------------------------------------------
  // Searching one table

  /** The events of what follows a hit: the `get_data` call, then the
      announcement and the report of a non-empty sample, or the verbose
      notice of an empty one. */
  function SampleEvents(o: Options, s: Server, database: string, table: string, hit: string): seq<Event>
  {
    var data := GetData(s, database, table);
    [Sampled(database, table)] +
    if |data| > 0 then
      [Matched(hit, database, table)]
      + (if o.report != "" then [Reported(Finding(database, table, GetColumns(s, database, table), data))] else [])
    else if o.verbose then [EmptySet(database, table)]
    else []
  }

  /** What follows a hit: one `get_data`; a non-empty sample is announced and,
      with a report format set, reported with the table's columns; an empty
      one gets the verbose notice. Either way the search of the table ends. */
  function Sample(o: Options, s: Server, database: string, table: string, hit: string, st: State): (r: State)
    requires Ready(o, st.sink)
    ensures Ready(o, r.sink)
    ensures |st.trace| < |r.trace| && r.trace[..|st.trace|] == st.trace
  {
    var data := GetData(s, database, table);
    var sink :=
      if |data| > 0 && o.report != "" then Reporter(o, st.sink, Finding(database, table, GetColumns(s, database, table), data))
      else st.sink;
    State(sink, st.trace + SampleEvents(o, s, database, table, hit))
  }

  /** `db_table_search`. */
  function TableSearch(o: Options, s: Server, database: string, table: string, st: State): (r: State)
    requires Ready(o, st.sink)
    ensures Ready(o, r.sink)
    ensures |st.trace| <= |r.trace| && r.trace[..|st.trace|] == st.trace
  {
    match FirstMatch(o.policy.tableKeyWords, table)
    case None => st
    case Some(k) => Sample(o, s, database, table, o.policy.tableKeyWords[k], st)
  }

  /** `db_column_search`: on a column hit the whole table is sampled. */
  function ColumnSearch(o: Options, s: Server, database: string, table: string, st: State): (r: State)
    requires Ready(o, st.sink)
    ensures Ready(o, r.sink)
    ensures |st.trace| <= |r.trace| && r.trace[..|st.trace|] == st.trace
  {
    var columns := GetColumns(s, database, table);
    match FirstColumnMatch(o.policy.columnKeyWords, columns)
    case None => st
    case Some(p) => Sample(o, s, database, table, columns[p.0], st)
  }

  function SearchTable(o: Options, s: Server, database: string, table: string, st: State): (r: State)
    requires Ready(o, st.sink)
    ensures Ready(o, r.sink)
    ensures |st.trace| <= |r.trace| && r.trace[..|st.trace|] == st.trace
  {
    if o.columnSearch then ColumnSearch(o, s, database, table, st) else TableSearch(o, s, database, table, st)
  }

  /** The events a step added. */
  function Added(st: State, r: State): seq<Event>
    requires |st.trace| <= |r.trace|
  {
    r.trace[|st.trace|..]
  }

  /** What one `Sample` step adds to the trace, read through each view. */
  ghost predicate SampleTrace(o: Options, s: Server, database: string, table: string, hit: string, st: State, r: State)
    requires |st.trace| <= |r.trace|
  {
    var d := Added(st, r);
    var data := GetData(s, database, table);
    && Samples(d) == [(database, table)]
    && Hits(d) == (if |data| > 0 then [hit] else [])
    && Empties(d) == (if |data| == 0 && o.verbose then [(database, table)] else [])
    && Findings(d) == (if |data| > 0 && o.report != "" then [Finding(database, table, GetColumns(s, database, table), data)] else [])
    && Findings(r.trace) == Findings(st.trace) + Findings(d)
    && (Findings(d) == [] ==> r.sink == st.sink)
    && EnumOnly(d)
  }

  /** The facts about one `Sample` step that the searches and walks use. */
  ghost predicate SampleFacts(o: Options, s: Server, database: string, table: string, hit: string, st: State, r: State)
    requires |st.trace| <= |r.trace|
  {
    && SampleTrace(o, s, database, table, hit, st, r)
    && (Sound(o, st) ==> Sound(o, r))
  }

  /** The events of one sample, read through each view. */
  lemma SampleViews(o: Options, s: Server, database: string, table: string, hit: string)
    ensures var d := SampleEvents(o, s, database, table, hit);
      var data := GetData(s, database, table);
      && Samples(d) == [(database, table)]
      && Hits(d) == (if |data| > 0 then [hit] else [])
      && Findings(d) == (if |data| > 0 && o.report != "" then [Finding(database, table, GetColumns(s, database, table), data)] else [])
      && EnumOnly(d)
  {
    var data := GetData(s, database, table);
    var d := SampleEvents(o, s, database, table, hit);
    var e0, e1 := Sampled(database, table), Matched(hit, database, table);
    CollectSingle(e0, SampleOf); CollectSingle(e0, HitOf); CollectSingle(e0, FindingOf);
    CollectSingle(e1, SampleOf); CollectSingle(e1, HitOf); CollectSingle(e1, FindingOf);
    if |data| > 0 && o.report != "" {
      var e2 := Reported(Finding(database, table, GetColumns(s, database, table), data));
      assert d == [e0, e1, e2];
      CollectThree(e0, e1, e2, SampleOf); CollectThree(e0, e1, e2, HitOf); CollectThree(e0, e1, e2, FindingOf);
      CollectSingle(e2, SampleOf); CollectSingle(e2, HitOf); CollectSingle(e2, FindingOf);
    } else if |data| > 0 || o.verbose {
      var e1' := if |data| > 0 then e1 else EmptySet(database, table);
      assert d == [e0, e1'];
      CollectTwo(e0, e1', SampleOf); CollectTwo(e0, e1', HitOf); CollectTwo(e0, e1', FindingOf);
      CollectSingle(e1', SampleOf); CollectSingle(e1', HitOf); CollectSingle(e1', FindingOf);
    } else {
      assert d == [e0];
    }
  }

  /** The empty-set notice: given exactly when the sample is empty and the
      run is verbose. */
  lemma SampleNotices(o: Options, s: Server, database: string, table: string, hit: string)
    ensures Empties(SampleEvents(o, s, database, table, hit))
      == if |GetData(s, database, table)| == 0 && o.verbose then [(database, table)] else []
  {
    var data := GetData(s, database, table);
    var d := SampleEvents(o, s, database, table, hit);
    var e0, e1 := Sampled(database, table), Matched(hit, database, table);
    CollectSingle(e0, EmptyOf); CollectSingle(e1, EmptyOf);
    if |data| > 0 && o.report != "" {
      var e2 := Reported(Finding(database, table, GetColumns(s, database, table), data));
      assert d == [e0, e1, e2];
      CollectThree(e0, e1, e2, EmptyOf); CollectSingle(e2, EmptyOf);
    } else if |data| > 0 || o.verbose {
      var e1' := if |data| > 0 then e1 else EmptySet(database, table);
      assert d == [e0, e1'];
      CollectTwo(e0, e1', EmptyOf); CollectSingle(e1', EmptyOf);
    } else {
      assert d == [e0];
    }
  }

  lemma SampleTraced(o: Options, s: Server, database: string, table: string, hit: string, st: State)
    requires Ready(o, st.sink)
    ensures SampleTrace(o, s, database, table, hit, st, Sample(o, s, database, table, hit, st))
  {
    var r := Sample(o, s, database, table, hit, st);
    var d := SampleEvents(o, s, database, table, hit);
    assert Added(st, r) == d;
    SampleViews(o, s, database, table, hit);
    SampleNotices(o, s, database, table, hit);
    CollectAppend(st.trace, d, FindingOf);
  }

  /** A sample keeps the sink in step with the findings the trace reports. */
  lemma SampleSound(o: Options, s: Server, database: string, table: string, hit: string, st: State)
    requires Ready(o, st.sink) && Sound(o, st)
    requires SampleTrace(o, s, database, table, hit, st, Sample(o, s, database, table, hit, st))
    ensures Sound(o, Sample(o, s, database, table, hit, st))
  {
    var data := GetData(s, database, table);
    if |data| > 0 && o.report != "" {
      ReporterRenders(o, st.sink, Findings(st.trace), Finding(database, table, GetColumns(s, database, table), data));
    } else {
      assert Findings(st.trace) + [] == Findings(st.trace);
    }
  }

  lemma SampleEffect(o: Options, s: Server, database: string, table: string, hit: string, st: State)
    requires Ready(o, st.sink)
    ensures SampleFacts(o, s, database, table, hit, st, Sample(o, s, database, table, hit, st))
  {
    SampleTraced(o, s, database, table, hit, st);
    if Sound(o, st) {
      SampleSound(o, s, database, table, hit, st);
    }
  }

  /** Table-keyword mode: `get_data` runs once exactly when some keyword
      occurs in the lower-cased table name, and never otherwise; only the
      first such keyword is announced; at most one finding is reported, and
      only for a non-empty sample with a report format set. */
  lemma TableKeywordSearch(o: Options, s: Server, database: string, table: string, st: State)
    requires Ready(o, st.sink)
    ensures var r := TableSearch(o, s, database, table, st);
      var d := Added(st, r);
      var kw := o.policy.tableKeyWords;
      var m := FirstMatch(kw, table);
      var data := GetData(s, database, table);
      && (m.None? <==> forall j :: 0 <= j < |kw| ==> !Mentions(table, kw[j]))
      && (m.None? ==> r == st)
      && Samples(d) == (if m.Some? then [(database, table)] else [])
      && Hits(d) == (if m.Some? && |data| > 0 then [kw[m.value]] else [])
      && Findings(d) == (if m.Some? && |data| > 0 && o.report != ""
                         then [Finding(database, table, GetColumns(s, database, table), data)] else [])
  {
    var m := FirstMatch(o.policy.tableKeyWords, table);
    if m.Some? {
      SampleEffect(o, s, database, table, o.policy.tableKeyWords[m.value], st);
    } else {
      assert Added(st, st) == [];
    }
  }

  /** Column-keyword mode: the first column (in listed order) holding a
      keyword triggers one `get_data` of the whole table and ends the
      search; the announced hit is that column; no matching column means
      nothing happens. */
  lemma ColumnKeywordSearch(o: Options, s: Server, database: string, table: string, st: State)
    requires Ready(o, st.sink)
    ensures var r := ColumnSearch(o, s, database, table, st);
      var d := Added(st, r);
      var columns := GetColumns(s, database, table);
      var m := FirstColumnMatch(o.policy.columnKeyWords, columns);
      var data := GetData(s, database, table);
      && (m.None? ==> r == st)
      && Samples(d) == (if m.Some? then [(database, table)] else [])
      && Hits(d) == (if m.Some? && |data| > 0 then [columns[m.value.0]] else [])
      && Findings(d) == (if m.Some? && |data| > 0 && o.report != "" then [Finding(database, table, columns, data)] else [])
  {
    var columns := GetColumns(s, database, table);
    var m := FirstColumnMatch(o.policy.columnKeyWords, columns);
    if m.Some? {
      SampleEffect(o, s, database, table, columns[m.value.0], st);
    } else {
      assert Added(st, st) == [];
    }
  }

  // ---------------------------------------------------------------------
  // Walking databases and tables

  /** A state reached by enumeration from `st`: the trace only grew, by
      enumeration events; every finding added is a genuine sample; the sink
      still renders the trace's findings. */
  ghost predicate Grows(o: Options, s: Server, st: State, r: State)
  {
    && |st.trace| <= |r.trace| && r.trace[..|st.trace|] == st.trace
    && EnumOnly(Added(st, r))
    && (forall f :: f in Findings(Added(st, r)) ==> Genuine(s, f))
    && (Sound(o, st) ==> Sound(o, r))
  }

  lemma GrowsRefl(o: Options, s: Server, st: State)
    ensures Grows(o, s, st, st)
  {
    assert Added(st, st) == [];
  }

  lemma {:induction false} GrowsTrans(o: Options, s: Server, st: State, m: State, r: State)
    requires Grows(o, s, st, m) && Grows(o, s, m, r)
    ensures Grows(o, s, st, r)
  {
    var d1 := Added(st, m);
    var d2 := Added(m, r);
    assert r.trace == m.trace + d2 by { assert r.trace == r.trace[..|m.trace|] + r.trace[|m.trace|..]; }
    assert m.trace == st.trace + d1 by { assert m.trace == m.trace[..|st.trace|] + m.trace[|st.trace|..]; }
    assert r.trace[..|st.trace|] == st.trace;
    assert Added(st, r) == d1 + d2;
    CollectAppend(d1, d2, FindingOf);
  }

  /** A sample is a step of enumeration. */
  lemma SampleGrows(o: Options, s: Server, database: string, table: string, hit: string, st: State)
    requires Ready(o, st.sink)
    ensures Grows(o, s, st, Sample(o, s, database, table, hit, st))
  {
    SampleEffect(o, s, database, table, hit, st);
  }

  lemma {:induction false} SearchTableGrows(o: Options, s: Server, database: string, table: string, st: State)
    requires Ready(o, st.sink)
    ensures Grows(o, s, st, SearchTable(o, s, database, table, st))
  {
    if o.columnSearch {
      var columns := GetColumns(s, database, table);
      var m := FirstColumnMatch(o.policy.columnKeyWords, columns);
      if m.Some? {
        SampleGrows(o, s, database, table, columns[m.value.0], st);
      } else {
        GrowsRefl(o, s, st);
      }
    } else {
      var m := FirstMatch(o.policy.tableKeyWords, table);
      if m.Some? {
        SampleGrows(o, s, database, table, o.policy.tableKeyWords[m.value], st);
      } else {
        GrowsRefl(o, s, st);
      }
    }
  }

  /** A walk's end state, and whether a blacklist hit cut it short. */
  datatype Walk = Walk(st: State, aborted: bool)

  /** One table of the `db_enum` loop: a blacklisted table ends everything. */
  function VisitTable(o: Options, s: Server, database: string, table: string, st: State): (w: Walk)
    requires Ready(o, st.sink)
    ensures Ready(o, w.st.sink)
  {
    if Lower(table) in o.policy.tableBlacklist then Walk(st, true)
    else Walk(SearchTable(o, s, database, table, st), false)
  }

  /** The inner loop of `db_enum` over the tables of one database. */
  function EnumTables(o: Options, s: Server, database: string, tables: seq<string>, st: State): (w: Walk)
    requires Ready(o, st.sink)
    ensures Ready(o, w.st.sink)
    decreases |tables|
  {
    if tables == [] then Walk(st, false)
    else
      var w := VisitTable(o, s, database, tables[0], st);
      if w.aborted then w else EnumTables(o, s, database, tables[1..], w.st)
  }

  /** One database of the `db_enum` loop: a blacklisted database ends
      everything, otherwise its tables are walked. */
  function VisitDatabase(o: Options, s: Server, database: string, st: State): (w: Walk)
    requires Ready(o, st.sink)
    ensures Ready(o, w.st.sink)
  {
    if Lower(database) in o.policy.dbBlacklist then Walk(st, true)
    else EnumTables(o, s, database, GetTables(s, database), st)
  }

  /** The outer loop of `db_enum`. */
  function EnumDatabases(o: Options, s: Server, dbs: seq<string>, st: State): (w: Walk)
    requires Ready(o, st.sink)
    ensures Ready(o, w.st.sink)
    decreases |dbs|
  {
    if dbs == [] then Walk(st, false)
    else
      var w := VisitDatabase(o, s, dbs[0], st);
      if w.aborted then w else EnumDatabases(o, s, dbs[1..], w.st)
  }

  /** `db_enum`: walks every database the server lists. */
  function DbEnum(o: Options, s: Server, st: State): (r: State)
    requires Ready(o, st.sink)
    ensures Ready(o, r.sink)
  {
    EnumDatabases(o, s, GetDatabases(s), st).st
  }

  lemma {:induction false} EnumTablesGrows(o: Options, s: Server, database: string, tables: seq<string>, st: State)
    requires Ready(o, st.sink)
    ensures Grows(o, s, st, EnumTables(o, s, database, tables, st).st)
    decreases |tables|
  {
    if tables == [] {
      GrowsRefl(o, s, st);
    } else {
      var w := VisitTable(o, s, database, tables[0], st);
      if Lower(tables[0]) in o.policy.tableBlacklist {
        GrowsRefl(o, s, st);
      } else {
        SearchTableGrows(o, s, database, tables[0], st);
        EnumTablesGrows(o, s, database, tables[1..], w.st);
        GrowsTrans(o, s, st, w.st, EnumTables(o, s, database, tables[1..], w.st).st);
      }
    }
  }

  lemma {:induction false} EnumDatabasesGrows(o: Options, s: Server, dbs: seq<string>, st: State)
    requires Ready(o, st.sink)
    ensures Grows(o, s, st, EnumDatabases(o, s, dbs, st).st)
    decreases |dbs|
  {
    if dbs == [] {
      GrowsRefl(o, s, st);
    } else {
      var w := VisitDatabase(o, s, dbs[0], st);
      if Lower(dbs[0]) in o.policy.dbBlacklist {
        GrowsRefl(o, s, st);
      } else {
        EnumTablesGrows(o, s, dbs[0], GetTables(s, dbs[0]), st);
      }
      if !w.aborted {
        EnumDatabasesGrows(o, s, dbs[1..], w.st);
        GrowsTrans(o, s, st, w.st, EnumDatabases(o, s, dbs[1..], w.st).st);
      }
    }
  }

  /** One enumeration only adds enumeration events; it samples exactly the
      walk's hits over the listed databases, in order, and reports exactly
      their non-empty samples; it is cut short exactly when a listed
      database or one of its tables is blacklisted; and it keeps the sink
      in step with the reported findings. */
  lemma DbEnumGrows(o: Options, s: Server, st: State)
    requires Ready(o, st.sink)
    ensures Grows(o, s, st, DbEnum(o, s, st))
    ensures Visits(o, s, st, DbEnum(o, s, st), WalkHits(o, s, GetDatabases(s)))
    ensures EnumDatabases(o, s, GetDatabases(s), st).aborted <==> WalkHalts(o, s, GetDatabases(s))
  {
    EnumDatabasesGrows(o, s, GetDatabases(s), st);
    EnumDatabasesVisits(o, s, GetDatabases(s), st);
  }

  // ---------------------------------------------------------------------
  // The blacklist ends the whole enumeration

  lemma {:induction false} EnumTablesSnoc(o: Options, s: Server, database: string, tables: seq<string>, t: string, st: State)
    requires Ready(o, st.sink)
    ensures EnumTables(o, s, database, tables + [t], st) ==
      (var w := EnumTables(o, s, database, tables, st);
       if w.aborted then w else VisitTable(o, s, database, t, w.st))
    decreases |tables|
  {
    if tables == [] {
      assert [] + [t] == [t];
      assert [t][1..] == [];
    } else {
      assert (tables + [t])[0] == tables[0];
      assert (tables + [t])[1..] == tables[1..] + [t];
      var w := VisitTable(o, s, database, tables[0], st);
      if !w.aborted {
        EnumTablesSnoc(o, s, database, tables[1..], t, w.st);
      }
    }
  }

  lemma {:induction false} EnumDatabasesSnoc(o: Options, s: Server, dbs: seq<string>, d: string, st: State)
    requires Ready(o, st.sink)
    ensures EnumDatabases(o, s, dbs + [d], st) ==
      (var w := EnumDatabases(o, s, dbs, st);
       if w.aborted then w else VisitDatabase(o, s, d, w.st))
    decreases |dbs|
  {
    if dbs == [] {
      assert [] + [d] == [d];
      assert [d][1..] == [];
    } else {
      assert (dbs + [d])[0] == dbs[0];
      assert (dbs + [d])[1..] == dbs[1..] + [d];
      var w := VisitDatabase(o, s, dbs[0], st);
      if !w.aborted {
        EnumDatabasesSnoc(o, s, dbs[1..], d, w.st);
      }
    }
  }

  /** Once a walk over some databases was cut short, databases listed
      after them change nothing. */
  lemma {:induction false} AbortIsFinal(o: Options, s: Server, dbs: seq<string>, rest: seq<string>, st: State)
    requires Ready(o, st.sink)
    requires EnumDatabases(o, s, dbs, st).aborted
    ensures EnumDatabases(o, s, dbs + rest, st) == EnumDatabases(o, s, dbs, st)
    decreases |dbs|
  {
    assert dbs != [];
    assert (dbs + rest)[0] == dbs[0];
    assert (dbs + rest)[1..] == dbs[1..] + rest;
    var w := VisitDatabase(o, s, dbs[0], st);
    if !w.aborted {
      AbortIsFinal(o, s, dbs[1..], rest, w.st);
    }
  }

  /** The same for the tables of one database. */
  lemma {:induction false} TableAbortIsFinal(o: Options, s: Server, database: string, tables: seq<string>, rest: seq<string>, st: State)
    requires Ready(o, st.sink)
    requires EnumTables(o, s, database, tables, st).aborted
    ensures EnumTables(o, s, database, tables + rest, st) == EnumTables(o, s, database, tables, st)
    decreases |tables|
  {
    assert tables != [];
    assert (tables + rest)[0] == tables[0];
    assert (tables + rest)[1..] == tables[1..] + rest;
    var w := VisitTable(o, s, database, tables[0], st);
    if !w.aborted {
      TableAbortIsFinal(o, s, database, tables[1..], rest, w.st);
    }
  }

  /** A database whose lower-cased name is blacklisted ends the enumeration
      there: the result is that of the databases before it, and no later
      database is looked at. Kept as the source behaves (`return`, not
      `continue`). */
  lemma BlacklistedDatabaseEndsWalk(o: Options, s: Server, dbs: seq<string>, k: nat, st: State)
    requires Ready(o, st.sink)
    requires k < |dbs| && Lower(dbs[k]) in o.policy.dbBlacklist
    ensures EnumDatabases(o, s, dbs, st).aborted
    ensures EnumDatabases(o, s, dbs, st) == EnumDatabases(o, s, dbs[..k + 1], st)
    ensures EnumDatabases(o, s, dbs, st).st == EnumDatabases(o, s, dbs[..k], st).st
  {
    assert dbs[..k + 1] == dbs[..k] + [dbs[k]];
    assert dbs == dbs[..k + 1] + dbs[k + 1..];
    EnumDatabasesSnoc(o, s, dbs[..k], dbs[k], st);
    AbortIsFinal(o, s, dbs[..k + 1], dbs[k + 1..], st);
  }

  /** A blacklisted table ends the walk of its database at that table. */
  lemma BlacklistedTableEndsTables(o: Options, s: Server, database: string, tables: seq<string>, k: nat, st: State)
    requires Ready(o, st.sink)
    requires k < |tables| && Lower(tables[k]) in o.policy.tableBlacklist
    ensures EnumTables(o, s, database, tables, st).aborted
    ensures EnumTables(o, s, database, tables, st) == EnumTables(o, s, database, tables[..k + 1], st)
    ensures EnumTables(o, s, database, tables, st).st == EnumTables(o, s, database, tables[..k], st).st
  {
    assert tables[..k + 1] == tables[..k] + [tables[k]];
    assert tables == tables[..k + 1] + tables[k + 1..];
    EnumTablesSnoc(o, s, database, tables[..k], tables[k], st);
    TableAbortIsFinal(o, s, database, tables[..k + 1], tables[k + 1..], st);
  }

  /** The comparison with the blacklists ignores case: a database or table
      whose name matches a lower-case entry up to the case of its letters ends
      the walk just as the entry itself would. */
  lemma BlacklistIgnoresCase(o: Options, s: Server, database: string, tables: seq<string>, k: nat, entry: string, st: State)
    requires Ready(o, st.sink)
    requires k < |tables| && entry in o.policy.tableBlacklist && NoCapitals(entry)
    requires SameUpToCase(tables[k], entry)
    ensures EnumTables(o, s, database, tables, st).aborted
    ensures EnumTables(o, s, database, tables, st) == EnumTables(o, s, database, tables[..k + 1], st)
  {
    LowerIgnoresCase(tables[k], entry);
    LowerKeepsLower(entry);
    BlacklistedTableEndsTables(o, s, database, tables, k, st);
  }

  lemma DbBlacklistIgnoresCase(o: Options, s: Server, dbs: seq<string>, k: nat, entry: string, st: State)
    requires Ready(o, st.sink)
    requires k < |dbs| && entry in o.policy.dbBlacklist && NoCapitals(entry)
    requires SameUpToCase(dbs[k], entry)
    ensures EnumDatabases(o, s, dbs, st).aborted
    ensures EnumDatabases(o, s, dbs, st) == EnumDatabases(o, s, dbs[..k + 1], st)
  {
    LowerIgnoresCase(dbs[k], entry);
    LowerKeepsLower(entry);
    BlacklistedDatabaseEndsWalk(o, s, dbs, k, st);
  }

  /** ... and the whole enumeration with it: when the walk reaches database
      k and its tables hit the table blacklist, no later database is looked at. */
  lemma TableBlacklistEndsWalk(o: Options, s: Server, dbs: seq<string>, k: nat, st: State)
    requires Ready(o, st.sink)
    requires k < |dbs| && !EnumDatabases(o, s, dbs[..k], st).aborted
    requires VisitDatabase(o, s, dbs[k], EnumDatabases(o, s, dbs[..k], st).st).aborted
    ensures EnumDatabases(o, s, dbs, st).aborted
    ensures EnumDatabases(o, s, dbs, st) == EnumDatabases(o, s, dbs[..k + 1], st)
  {
    assert dbs[..k + 1] == dbs[..k] + [dbs[k]];
    assert dbs == dbs[..k + 1] + dbs[k + 1..];
    EnumDatabasesSnoc(o, s, dbs[..k], dbs[k], st);
    AbortIsFinal(o, s, dbs[..k + 1], dbs[k + 1..], st);
  }

  /** With both blacklists empty, as shipped, the walk is never cut short. */
  lemma {:induction false} EmptyBlacklistsNeverAbort(o: Options, s: Server, dbs: seq<string>, st: State)
    requires Ready(o, st.sink)
    requires o.policy.dbBlacklist == [] && o.policy.tableBlacklist == []
    ensures !EnumDatabases(o, s, dbs, st).aborted
    decreases |dbs|
  {
    if dbs != [] {
      TablesNeverAbort(o, s, dbs[0], GetTables(s, dbs[0]), st);
      EmptyBlacklistsNeverAbort(o, s, dbs[1..], VisitDatabase(o, s, dbs[0], st).st);
    }
  }

  lemma {:induction false} TablesNeverAbort(o: Options, s: Server, database: string, tables: seq<string>, st: State)
    requires Ready(o, st.sink)
    requires o.policy.tableBlacklist == []
    ensures !EnumTables(o, s, database, tables, st).aborted
    decreases |tables|
  {
    if tables != [] {
      TablesNeverAbort(o, s, database, tables[1..], VisitTable(o, s, database, tables[0], st).st);
    }
  }

  /** As shipped, with both blacklists empty, no enumeration is cut short. */
  lemma {:induction false} ShippedNeverAborts(o: Options, s: Server, dbs: seq<string>, st: State)
    requires Ready(o, st.sink) && o.policy == Shipped
    ensures !EnumDatabases(o, s, dbs, st).aborted
  {
    EmptyBlacklistsNeverAbort(o, s, dbs, st);
  }

  // ---------------------------------------------------------------------
  // Which tables a walk samples: a reference definition

  /** The table is flagged: by its own name in table-keyword mode, by one
      of its columns in column mode. */
  predicate Flagged(o: Options, s: Server, database: string, table: string)
  {
    if o.columnSearch then FirstColumnMatch(o.policy.columnKeyWords, GetColumns(s, database, table)).Some?
    else FirstMatch(o.policy.tableKeyWords, table).Some?
  }

  /** Some table of the list has a blacklisted lower-cased name. */
  ghost predicate TablesStop(o: Options, tables: seq<string>)
  {
    exists i :: 0 <= i < |tables| && Lower(tables[i]) in o.policy.tableBlacklist
  }

  /** A walk that reaches the database ends there: the database or one of
      its tables is blacklisted. */
  ghost predicate Halts(o: Options, s: Server, database: string)
  {
    Lower(database) in o.policy.dbBlacklist || TablesStop(o, GetTables(s, database))
  }

  /** Some database of the list halts a walk. */
  ghost predicate WalkHalts(o: Options, s: Server, dbs: seq<string>)
  {
    exists k :: 0 <= k < |dbs| && Halts(o, s, dbs[k])
  }

  /** The tables of one database that get sampled: the flagged ones, in
      listed order, up to the first blacklisted table. */
  ghost function TableHits(o: Options, s: Server, database: string, tables: seq<string>): seq<(string, string)>
    decreases |tables|
  {
    if tables == [] || Lower(tables[0]) in o.policy.tableBlacklist then []
    else (if Flagged(o, s, database, tables[0]) then [(database, tables[0])] else []) + TableHits(o, s, database, tables[1..])
  }

  /** The tables a whole walk samples: database by database in listed
      order, each database's table hits, up to the first blacklisted
      database or table. */
  ghost function WalkHits(o: Options, s: Server, dbs: seq<string>): seq<(string, string)>
    decreases |dbs|
  {
    if dbs == [] || Lower(dbs[0]) in o.policy.dbBlacklist then []
    else
      var tables := GetTables(s, dbs[0]);
      TableHits(o, s, dbs[0], tables) + (if TablesStop(o, tables) then [] else WalkHits(o, s, dbs[1..]))
  }

  /** The findings that sampling the tables `hits` hands to the report:
      the non-empty samples, with the table's columns, when a report is set. */
  function Reportable(o: Options, s: Server, hits: seq<(string, string)>): seq<Finding>
  {
    if hits == [] then []
    else
      var database, table := hits[0].0, hits[0].1;
      var data := GetData(s, database, table);
      (if |data| > 0 && o.report != "" then [Finding(database, table, GetColumns(s, database, table), data)] else [])
      + Reportable(o, s, hits[1..])
  }

  lemma {:induction false} ReportableAppend(o: Options, s: Server, a: seq<(string, string)>, b: seq<(string, string)>)
    ensures Reportable(o, s, a + b) == Reportable(o, s, a) + Reportable(o, s, b)
  {
    if a == [] {
      assert a + b == b;
    } else {
      assert (a + b)[0] == a[0];
      assert (a + b)[1..] == a[1..] + b;
      ReportableAppend(o, s, a[1..], b);
    }
  }

  /** From `st` to `r` exactly the tables `hits` were sampled, in order,
      and exactly their reportable findings were reported. */
  ghost predicate Visits(o: Options, s: Server, st: State, r: State, hits: seq<(string, string)>)
  {
    && |st.trace| <= |r.trace| && r.trace[..|st.trace|] == st.trace
    && Samples(Added(st, r)) == hits
    && Findings(Added(st, r)) == Reportable(o, s, hits)
  }

  lemma VisitsRefl(o: Options, s: Server, st: State)
    ensures Visits(o, s, st, st, [])
  {
    assert Added(st, st) == [];
  }

  lemma {:induction false} VisitsTrans(o: Options, s: Server, st: State, m: State, r: State,
                                       a: seq<(string, string)>, b: seq<(string, string)>)
    requires Visits(o, s, st, m, a) && Visits(o, s, m, r, b)
    ensures Visits(o, s, st, r, a + b)
  {
    var d1 := Added(st, m);
    var d2 := Added(m, r);
    assert r.trace == m.trace + d2 by { assert r.trace == r.trace[..|m.trace|] + r.trace[|m.trace|..]; }
    assert m.trace == st.trace + d1 by { assert m.trace == m.trace[..|st.trace|] + m.trace[|st.trace|..]; }
    assert r.trace[..|st.trace|] == st.trace;
    assert Added(st, r) == d1 + d2;
    CollectAppend(d1, d2, SampleOf);
    CollectAppend(d1, d2, FindingOf);
    ReportableAppend(o, s, a, b);
  }

  /** Searching one table samples it exactly when it is flagged. */
  lemma SearchTableVisits(o: Options, s: Server, database: string, table: string, st: State)
    requires Ready(o, st.sink)
    ensures Visits(o, s, st, SearchTable(o, s, database, table, st),
                   if Flagged(o, s, database, table) then [(database, table)] else [])
  {
    var hits := [(database, table)];
    assert hits[1..] == [];
    var data := GetData(s, database, table);
    assert Reportable(o, s, hits) ==
      (if |data| > 0 && o.report != "" then [Finding(database, table, GetColumns(s, database, table), data)] else []) + [];
    if o.columnSearch {
      ColumnKeywordSearch(o, s, database, table, st);
    } else {
      TableKeywordSearch(o, s, database, table, st);
    }
  }

  lemma TablesStopStep(o: Options, tables: seq<string>)
    requires tables != [] && Lower(tables[0]) !in o.policy.tableBlacklist
    ensures TablesStop(o, tables) <==> TablesStop(o, tables[1..])
  {
    if TablesStop(o, tables) {
      var i :| 0 <= i < |tables| && Lower(tables[i]) in o.policy.tableBlacklist;
      assert tables[1..][i - 1] == tables[i];
    }
    if TablesStop(o, tables[1..]) {
      var i :| 0 <= i < |tables[1..]| && Lower(tables[1..][i]) in o.policy.tableBlacklist;
      assert tables[i + 1] == tables[1..][i];
    }
  }

  lemma WalkHaltsStep(o: Options, s: Server, dbs: seq<string>)
    requires dbs != [] && !Halts(o, s, dbs[0])
    ensures WalkHalts(o, s, dbs) <==> WalkHalts(o, s, dbs[1..])
  {
    if WalkHalts(o, s, dbs) {
      var k :| 0 <= k < |dbs| && Halts(o, s, dbs[k]);
      assert dbs[1..][k - 1] == dbs[k];
    }
    if WalkHalts(o, s, dbs[1..]) {
      var k :| 0 <= k < |dbs[1..]| && Halts(o, s, dbs[1..][k]);
      assert dbs[k + 1] == dbs[1..][k];
    }
  }

  /** The walk over one database's tables samples exactly its table hits,
      and is cut short exactly when some listed table is blacklisted. */
  lemma {:induction false} EnumTablesVisits(o: Options, s: Server, database: string, tables: seq<string>, st: State)
    requires Ready(o, st.sink)
    ensures var w := EnumTables(o, s, database, tables, st);
      Visits(o, s, st, w.st, TableHits(o, s, database, tables)) && (w.aborted <==> TablesStop(o, tables))
    decreases |tables|
  {
    if tables == [] {
      VisitsRefl(o, s, st);
    } else if Lower(tables[0]) in o.policy.tableBlacklist {
      VisitsRefl(o, s, st);
      assert 0 <= 0 < |tables| && Lower(tables[0]) in o.policy.tableBlacklist;
    } else {
      var first := if Flagged(o, s, database, tables[0]) then [(database, tables[0])] else [];
      var m := SearchTable(o, s, database, tables[0], st);
      SearchTableVisits(o, s, database, tables[0], st);
      EnumTablesVisits(o, s, database, tables[1..], m);
      VisitsTrans(o, s, st, m, EnumTables(o, s, database, tables[1..], m).st, first, TableHits(o, s, database, tables[1..]));
      TablesStopStep(o, tables);
    }
  }

  /** The walk over the databases samples exactly the walk's hits, and is
      cut short exactly when some listed database or one of its tables is
      blacklisted. */
  lemma {:induction false} EnumDatabasesVisits(o: Options, s: Server, dbs: seq<string>, st: State)
    requires Ready(o, st.sink)
    ensures var w := EnumDatabases(o, s, dbs, st);
      Visits(o, s, st, w.st, WalkHits(o, s, dbs)) && (w.aborted <==> WalkHalts(o, s, dbs))
    decreases |dbs|
  {
    if dbs == [] {
      VisitsRefl(o, s, st);
    } else if Lower(dbs[0]) in o.policy.dbBlacklist {
      VisitsRefl(o, s, st);
      assert Halts(o, s, dbs[0]);
    } else {
      var tables := GetTables(s, dbs[0]);
      var hits := TableHits(o, s, dbs[0], tables);
      var w := EnumTables(o, s, dbs[0], tables, st);
      EnumTablesVisits(o, s, dbs[0], tables, st);
      if w.aborted {
        assert Halts(o, s, dbs[0]);
        assert hits + [] == hits;
      } else {
        EnumDatabasesVisits(o, s, dbs[1..], w.st);
        VisitsTrans(o, s, st, w.st, EnumDatabases(o, s, dbs[1..], w.st).st, hits, WalkHits(o, s, dbs[1..]));
        WalkHaltsStep(o, s, dbs);
      }
    }
  }
}
