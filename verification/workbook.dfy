/** The workbook report of enumdb.py (`create_xlsx`): an overview sheet
    listing every reported table, and one sheet per reported table. Cells
    are addressed (row, column) from 1, as the spreadsheet library counts. */
module Workbook {
  import opened Driver
  import opened Reports

  type Cell = (nat, nat)

  datatype Sheet = Sheet(title: string, cells: map<Cell, string>)

  /** The overview, the row its next entry goes to, and the table sheets
      in creation order. */
  datatype Book = Book(overview: Sheet, nextRow: nat, sheets: seq<Sheet>)

  /** The first overview row that lists a table. */
  const FirstOverviewRow: nat := 5

  /** Sheet titles keep at most this many characters of the table name. */
  const TitleLength: nat := 15

  /** The fixed labels of the overview and the target it describes. */
  function HeaderCells(host: string, dbType: string): map<Cell, string>
  {
    map[(1, 1) := "Target(s):", (1, 2) := host,
        (2, 1) := "DB Type:", (2, 2) := dbType,
        (4, 1) := "Database", (4, 2) := "Table", (4, 3) := "Server"]
  }

  /** `create_workbook` followed by `create_overview`. */
  function CreateOverview(host: string, dbType: string): Book
  {
    Book(Sheet("Overview", HeaderCells(host, dbType)), FirstOverviewRow, [])
  }

  /** `addto_overview`: fills the three cells of the next row and moves the
      row counter on; every other cell is left as it was. */
  function AddToOverview(b: Book, db: string, table: string, keyword: string): (r: Book)
    ensures r.nextRow == b.nextRow + 1
    ensures r.sheets == b.sheets && r.overview.title == b.overview.title
    ensures forall k :: k in r.overview.cells <==> k in b.overview.cells || (k.0 == b.nextRow && 1 <= k.1 <= 3)
    ensures forall k :: k in b.overview.cells && !(k.0 == b.nextRow && 1 <= k.1 <= 3) ==> r.overview.cells[k] == b.overview.cells[k]
    ensures r.overview.cells[(b.nextRow, 1)] == db
    ensures r.overview.cells[(b.nextRow, 2)] == table
    ensures r.overview.cells[(b.nextRow, 3)] == keyword
  {
    var n := b.nextRow;
    var cells := b.overview.cells[(n, 1) := db][(n, 2) := table][(n, 3) := keyword];
    Book(Sheet(b.overview.title, cells), n + 1, b.sheets)
  }

  /** `table[0:15]`. */
  function SheetTitle(table: string): (t: string)
    ensures |t| <= TitleLength
    ensures |t| == if |table| < TitleLength then |table| else TitleLength
    ensures t == table[..|t|]
  {
    if |table| <= TitleLength then table else table[..TitleLength]
  }

  /** The values of one spreadsheet row, placed from column 1 on. */
  function RowCells(row: nat, items: seq<string>): (m: map<Cell, string>)
    ensures forall k :: k in m <==> k.0 == row && 1 <= k.1 <= |items|
    ensures forall i :: 0 <= i < |items| ==> m[(row, i + 1)] == items[i]
    decreases |items|
  {
    if items == [] then map[]
    else RowCells(row, items[..|items| - 1])[(row, |items|) := items[|items| - 1]]
  }

  /** The cells of `m` are those of `rows`, row r on spreadsheet row
      first + r from column 1 on. */
  ghost predicate PlacesKeys(m: map<Cell, string>, first: nat, rows: seq<Row>)
  {
    forall k :: k in m <==> first <= k.0 < first + |rows| && 1 <= k.1 <= |rows[k.0 - first]|
  }

  /** Value c of row r sits in its cell. */
  ghost predicate ValueAt(m: map<Cell, string>, first: nat, rows: seq<Row>, r: nat, c: nat)
    requires r < |rows| && c < |rows[r]|
  {
    (first + r, c + 1) in m && m[(first + r, c + 1)] == rows[r][c]
  }

  /** Each of those cells holds its value. */
  ghost predicate PlacesValues(m: map<Cell, string>, first: nat, rows: seq<Row>)
  {
    forall r: nat, c: nat :: r < |rows| && c < |rows[r]| ==> ValueAt(m, first, rows, r, c)
  }

  /** `m` holds exactly the values of `rows`. */
  ghost predicate Places(m: map<Cell, string>, first: nat, rows: seq<Row>)
  {
    PlacesKeys(m, first, rows) && PlacesValues(m, first, rows)
  }

  /** Adding the last row adds exactly its cells. */
  lemma PlacesKeysSnoc(m0: map<Cell, string>, first: nat, rows: seq<Row>)
    requires rows != [] && PlacesKeys(m0, first, rows[..|rows| - 1])
    ensures PlacesKeys(m0 + RowCells(first + |rows| - 1, rows[|rows| - 1]), first, rows)
  {
    var last := |rows| - 1;
    assert forall r :: 0 <= r < last ==> rows[..last][r] == rows[r];
  }

  /** A value of a row already placed is kept when a row is added below. */
  lemma ValueKept(m0: map<Cell, string>, row: map<Cell, string>, first: nat, rows: seq<Row>, r: nat, c: nat)
    requires rows != [] && PlacesValues(m0, first, rows[..|rows| - 1])
    requires forall k :: k in row ==> k.0 == first + |rows| - 1
    requires r < |rows| - 1 && c < |rows[r]|
    ensures ValueAt(m0 + row, first, rows, r, c)
  {
    assert rows[..|rows| - 1][r] == rows[r];
    assert ValueAt(m0, first, rows[..|rows| - 1], r, c);
    assert (first + r, c + 1) !in row;
  }

  /** Adding the last row puts every value, old and new, in its cell. */
  lemma PlacesValuesSnoc(m0: map<Cell, string>, first: nat, rows: seq<Row>)
    requires rows != [] && PlacesValues(m0, first, rows[..|rows| - 1])
    ensures PlacesValues(m0 + RowCells(first + |rows| - 1, rows[|rows| - 1]), first, rows)
  {
    var last := |rows| - 1;
    var row := RowCells(first + last, rows[last]);
    forall r: nat, c: nat | r < |rows| && c < |rows[r]|
      ensures ValueAt(m0 + row, first, rows, r, c)
    {
      if r < last {
        ValueKept(m0, row, first, rows, r, c);
      } else {
        assert row[(first + last, c + 1)] == rows[last][c];
      }
    }
  }

  /** Placing the last row below the others places them all. */
  lemma PlacesSnoc(m0: map<Cell, string>, first: nat, rows: seq<Row>)
    requires rows != [] && Places(m0, first, rows[..|rows| - 1])
    ensures Places(m0 + RowCells(first + |rows| - 1, rows[|rows| - 1]), first, rows)
  {
    PlacesKeysSnoc(m0, first, rows);
    PlacesValuesSnoc(m0, first, rows);
  }

  /** Rows of values placed one spreadsheet row each, from row `first` on. */
  function DataCells(first: nat, rows: seq<Row>): (m: map<Cell, string>)
    ensures Places(m, first, rows)
    decreases |rows|
  {
    if rows == [] then map[]
    else
      var m0 := DataCells(first, rows[..|rows| - 1]);
      PlacesSnoc(m0, first, rows);
      m0 + RowCells(first + |rows| - 1, rows[|rows| - 1])
  }

  /** The sheet `create_sheet` fills for one table: the heading in A1, the
      column names across row 2, data row r across row 3 + r. */
  function NewSheet(db: string, table: string, columns: seq<string>, data: seq<Row>, host: string): (s: Sheet)
    ensures s.title == SheetTitle(table)
    ensures forall k :: k in s.cells <==>
      k == (1, 1) || (k.0 == 2 && 1 <= k.1 <= |columns|) || (3 <= k.0 < 3 + |data| && 1 <= k.1 <= |data[k.0 - 3]|)
    ensures s.cells[(1, 1)] == Heading(table, db, host)
    ensures forall i :: 0 <= i < |columns| ==> s.cells[(2, i + 1)] == columns[i]
    ensures forall r, c :: 0 <= r < |data| && 0 <= c < |data[r]| ==> s.cells[(3 + r, c + 1)] == data[r][c]
  {
    var top := map[(1, 1) := Heading(table, db, host)] + RowCells(2, columns);
    DataBelow(top, data);
    Sheet(SheetTitle(table), top + DataCells(3, data))
  }

  /** Data placed from row 3 on is read back under cells of the rows above. */
  lemma DataBelow(top: map<Cell, string>, data: seq<Row>)
    requires forall k :: k in top ==> k.0 < 3
    ensures forall r, c :: 0 <= r < |data| && 0 <= c < |data[r]| ==> (top + DataCells(3, data))[(3 + r, c + 1)] == data[r][c]
  {
    forall r, c | 0 <= r < |data| && 0 <= c < |data[r]|
      ensures (top + DataCells(3, data))[(3 + r, c + 1)] == data[r][c]
    {
      assert ValueAt(DataCells(3, data), 3, data, r, c);
    }
  }

  /** `create_sheet`: appends the table's sheet and leaves the overview alone. */
  function CreateSheet(b: Book, db: string, table: string, columns: seq<string>, data: seq<Row>, host: string): (r: Book)
    ensures r.overview == b.overview && r.nextRow == b.nextRow
    ensures |r.sheets| == |b.sheets| + 1 && r.sheets[..|b.sheets|] == b.sheets
    ensures r.sheets[|b.sheets|] == NewSheet(db, table, columns, data, host)
  {
    Book(b.overview, b.nextRow, b.sheets + [NewSheet(db, table, columns, data, host)])
  }

  /** The overview lists the findings `fs`: the fixed labels, and row
      5 + i naming the database and table of finding i and the host. */
  ghost predicate OverviewLists(ov: Sheet, host: string, dbType: string, fs: seq<Finding>)
  {
    && ov.title == "Overview"
    && (forall k :: k in ov.cells <==>
          k in HeaderCells(host, dbType) || (FirstOverviewRow <= k.0 < FirstOverviewRow + |fs| && 1 <= k.1 <= 3))
    && (forall k :: k in HeaderCells(host, dbType) ==> ov.cells[k] == HeaderCells(host, dbType)[k])
    && (forall i :: 0 <= i < |fs| ==>
          && ov.cells[(FirstOverviewRow + i, 1)] == fs[i].database
          && ov.cells[(FirstOverviewRow + i, 2)] == fs[i].table
          && ov.cells[(FirstOverviewRow + i, 3)] == host)
  }

  /** Sheet i holds the sample of finding i. */
  ghost predicate SheetsList(sheets: seq<Sheet>, host: string, fs: seq<Finding>)
  {
    && |sheets| == |fs|
    && (forall i :: 0 <= i < |fs| ==>
          sheets[i] == NewSheet(fs[i].database, fs[i].table, fs[i].columns, fs[i].rows, host))
  }

  /** The book lists exactly the findings `fs`, in order, and its next
      overview entry goes right below them. */
  ghost predicate Lists(b: Book, host: string, dbType: string, fs: seq<Finding>)
  {
    && b.nextRow == FirstOverviewRow + |fs|
    && OverviewLists(b.overview, host, dbType, fs)
    && SheetsList(b.sheets, host, fs)
  }

  /** A fresh workbook lists nothing. */
  lemma OverviewStartsEmpty(host: string, dbType: string)
    ensures Lists(CreateOverview(host, dbType), host, dbType, [])
  {
  }

  /** `addto_overview` adds finding f's row under the ones already listed. */
  lemma {:induction false} OverviewExtends(b: Book, host: string, dbType: string, fs: seq<Finding>, f: Finding)
    requires b.nextRow == FirstOverviewRow + |fs| && OverviewLists(b.overview, host, dbType, fs)
    ensures OverviewLists(AddToOverview(b, f.database, f.table, host).overview, host, dbType, fs + [f])
  {
    var ov := AddToOverview(b, f.database, f.table, host).overview;
    var fs' := fs + [f];
    var header := HeaderCells(host, dbType);
    assert forall k :: k in header ==> k.0 < FirstOverviewRow;
    forall k
      ensures k in ov.cells <==> k in header || (FirstOverviewRow <= k.0 < FirstOverviewRow + |fs'| && 1 <= k.1 <= 3)
    {
    }
    forall k | k in header
      ensures ov.cells[k] == header[k]
    {
      assert k in b.overview.cells;
    }
    forall i | 0 <= i < |fs'|
      ensures ov.cells[(FirstOverviewRow + i, 1)] == fs'[i].database
      ensures ov.cells[(FirstOverviewRow + i, 2)] == fs'[i].table
      ensures ov.cells[(FirstOverviewRow + i, 3)] == host
    {
      if i < |fs| {
        assert (FirstOverviewRow + i, 1) in b.overview.cells;
        assert (FirstOverviewRow + i, 2) in b.overview.cells;
        assert (FirstOverviewRow + i, 3) in b.overview.cells;
      }
    }
  }

  /** `create_sheet` adds finding f's sheet after the ones already listed. */
  lemma {:induction false} SheetsExtend(sheets: seq<Sheet>, host: string, fs: seq<Finding>, f: Finding)
    requires SheetsList(sheets, host, fs)
    ensures SheetsList(sheets + [NewSheet(f.database, f.table, f.columns, f.rows, host)], host, fs + [f])
  {
    var fs' := fs + [f];
    var sheets' := sheets + [NewSheet(f.database, f.table, f.columns, f.rows, host)];
    forall i | 0 <= i < |fs'|
      ensures sheets'[i] == NewSheet(fs'[i].database, fs'[i].table, fs'[i].columns, fs'[i].rows, host)
    {
      if i < |fs| {
        assert sheets'[i] == sheets[i] && fs'[i] == fs[i];
      }
    }
  }

  /** Recording a finding the way `db_reporter` does (overview row with the
      host in the third column, then the table sheet) lists one more. */
  lemma RecordExtends(b: Book, host: string, dbType: string, fs: seq<Finding>, f: Finding)
    requires Lists(b, host, dbType, fs)
    ensures Lists(CreateSheet(AddToOverview(b, f.database, f.table, host), f.database, f.table, f.columns, f.rows, host),
                  host, dbType, fs + [f])
  {
    OverviewExtends(b, host, dbType, fs, f);
    SheetsExtend(b.sheets, host, fs, f);
  }
}
