/** The database driver of enumdb.py seen from the enumeration engine.
    A live connection is replaced by a snapshot of what the server answers;
    the two dialects differ only in statement text, which is not modelled,
    so one abstract driver serves both. */
module Driver {
  import Config

  /** One fetched row, each value as `str()` renders it. */
  type Row = seq<string>

  /** A row of a schema listing: the name is its first field. */
  type Listing = r: Row | |r| >= 1 witness [""]

  /** What executing one statement gives: an error or the fetched rows. */
  datatype Query<T> = QueryError | Fetched(rows: seq<T>)

  /** What one server answers for one target: the accounts it accepts and
      the outcome of each listing and sampling statement. A name the
      snapshot records nothing for behaves like a failed statement. */
  datatype Server = Server(
    logins: set<(string, string)>,
    databases: Query<Listing>,
    tables: map<string, Query<Listing>>,
    columns: map<(string, string), Query<Listing>>,
    data: map<(string, string), Query<Row>>)

  /** `db_query`: a failing statement yields no rows instead of an error. */
  function DbQuery<T>(q: Query<T>): (r: seq<T>)
    ensures q.QueryError? ==> r == []
    ensures q.Fetched? ==> r == q.rows
  {
    match q
    case QueryError => []
    case Fetched(rows) => rows
  }

  /** The name column of a listing: the first field of every row, in order. */
  function FirstFields(rows: seq<Listing>): (r: seq<string>)
    ensures |r| == |rows|
    ensures forall i :: 0 <= i < |rows| ==> r[i] == rows[i][0]
  {
    if rows == [] then [] else [rows[0][0]] + FirstFields(rows[1..])
  }

  /** A listing statement's names, empty when the statement fails. */
  function Names(q: Query<Listing>): (r: seq<string>)
    ensures q.QueryError? ==> r == []
    ensures q.Fetched? ==> |r| == |q.rows| && forall i :: 0 <= i < |r| ==> r[i] == q.rows[i][0]
  {
    FirstFields(DbQuery(q))
  }

  /** `connect`: true when the server accepts the account. */
  predicate Connect(s: Server, user: string, passwd: string)
  {
    (user, passwd) in s.logins
  }

  /** `get_databases`. */
  function GetDatabases(s: Server): (r: seq<string>)
    ensures s.databases.QueryError? ==> r == []
    ensures s.databases.Fetched? ==> |r| == |s.databases.rows|
    ensures s.databases.Fetched? ==> forall i :: 0 <= i < |r| ==> r[i] == s.databases.rows[i][0]
  {
    Names(s.databases)
  }

  /** `get_tables`: nothing for a database the server cannot list. */
  function GetTables(s: Server, database: string): (r: seq<string>)
    ensures database !in s.tables || s.tables[database].QueryError? ==> r == []
    ensures database in s.tables && s.tables[database].Fetched? ==>
      |r| == |s.tables[database].rows| &&
      forall i :: 0 <= i < |r| ==> r[i] == s.tables[database].rows[i][0]
  {
    if database in s.tables then Names(s.tables[database]) else []
  }

  /** `get_columns`: nothing for a table the server cannot describe. */
  function GetColumns(s: Server, database: string, table: string): (r: seq<string>)
    ensures (database, table) !in s.columns || s.columns[(database, table)].QueryError? ==> r == []
    ensures (database, table) in s.columns && s.columns[(database, table)].Fetched? ==>
      |r| == |s.columns[(database, table)].rows| &&
      forall i :: 0 <= i < |r| ==> r[i] == s.columns[(database, table)].rows[i][0]
  {
    if (database, table) in s.columns then Names(s.columns[(database, table)]) else []
  }

  /** `get_data`: the sampled rows, nothing when sampling fails. */
  function GetData(s: Server, database: string, table: string): (r: seq<Row>)
    ensures (database, table) !in s.data || s.data[(database, table)].QueryError? ==> r == []
    ensures (database, table) in s.data && s.data[(database, table)].Fetched? ==>
      r == s.data[(database, table)].rows
  {
    if (database, table) in s.data then DbQuery(s.data[(database, table)]) else []
  }

  /** The sampling statement carries the row limit; this is the assumption
      that the server honours it. */
  ghost predicate WithinLimit(s: Server)
  {
    forall k :: k in s.data && s.data[k].Fetched? ==> |s.data[k].rows| <= Config.SelectLimit
  }
}
