/** Fixed configuration and the small argument helpers of enumdb.py:
    keyword lists and blacklists, the database-type dispatch, the default
    port and the per-target output file name. */
module Config {
  import opened Wrappers

  /** Substrings that flag a table name (all lower case), in search order. */
  const TableKeyWords: seq<string> :=
    ["user", "login", "logon", "config", "hr", "finance", "account", "password",
     "passwd", "hash", "ssn", "credit", "social", "401k", "benefits", "pwd"]

  /** Substrings that flag a column name (all lower case), in search order. */
  const ColumnKeyWords: seq<string> := ["login", "account", "pass", "ssn", "credit", "social", "pwd"]

  /** Database names whose appearance ends the enumeration (shipped empty). */
  const DbBlacklist: seq<string> := []

  /** Table names whose appearance ends the enumeration (shipped empty). */
  const TableBlacklist: seq<string> := []

  /** Row bound written into the sampling statement of both dialects. */
  const SelectLimit: nat := 100

  /** The keyword policy: the four lists above, read-only during a run. */
  datatype Policy = Policy(
    tableKeyWords: seq<string>,
    columnKeyWords: seq<string>,
    dbBlacklist: seq<string>,
    tableBlacklist: seq<string>)

  /** The policy as the program ships it. */
  const Shipped: Policy := Policy(TableKeyWords, ColumnKeyWords, DbBlacklist, TableBlacklist)

  /** The two supported database engines. */
  datatype Dialect = MySql | MsSql

  /** The `-t` value that selects a dialect. */
  function DialectName(d: Dialect): string
  {
    match d
    case MySql => "mysql"
    case MsSql => "mssql"
  }

  /** `db_obj`: the driver for a database type, or nothing for an unknown type. */
  function DbObj(dbType: string): (r: Option<Dialect>)
    ensures r.Some? ==> DialectName(r.value) == dbType
    ensures r.None? <==> forall d: Dialect :: DialectName(d) != dbType
  {
    if dbType == "mssql" then Some(MsSql)
    else if dbType == "mysql" then Some(MySql)
    else None
  }

  /** The port each engine listens on by default. */
  function StandardPort(d: Dialect): nat
  {
    match d
    case MySql => 3306
    case MsSql => 1433
  }

  /** The one fatal configuration error of the core (`exit(1)`). */
  datatype ConfigError = InvalidDbType(dbType: string)

  /** `default_port`: defined exactly for the database types `db_obj` knows,
      and then the standard port of that engine. */
  function DefaultPort(db: string): (r: Result<nat, ConfigError>)
    ensures r.Success? <==> DbObj(db).Some?
    ensures r.Success? ==> r.value == StandardPort(DbObj(db).value)
    ensures r.Failure? ==> r.error == InvalidDbType(db)
  {
    if db == "mysql" then Success(3306)
    else if db == "mssql" then Success(1433)
    else Failure(InvalidDbType(db))
  }

  /** The port actually used: `-port` when given (non-zero), otherwise the
      default of the database type, whose absence is then fatal. */
  function EffectivePort(port: int, db: string): (r: Result<int, ConfigError>)
    ensures port != 0 ==> r == Success(port)
    ensures port == 0 ==> (r.Success? <==> DbObj(db).Some?)
    ensures port == 0 && r.Success? ==> r.value == StandardPort(DbObj(db).value)
  {
    if port == 0 then
      match DefaultPort(db)
      case Success(p) => Success(p)
      case Failure(e) => Failure(e)
    else Success(port)
  }

  /** `file_ext`: "csv" for the csv report and "xlsx" for every other one. */
  function FileExt(report: string): (ext: string)
    ensures ext == "csv" <==> report == "csv"
    ensures ext == "xlsx" <==> report != "csv"
  {
    if report == "csv" then "csv" else "xlsx"
  }

  const OutfilePrefix: string := "enumdb_"

  /** `get_outfile`: no file without a report (the empty string stands for
      Python's falsy `False`), otherwise a name built from the target and
      the report's extension. */
  function GetOutfile(report: string, target: string): (r: Option<string>)
    ensures r.None? <==> report == ""
    ensures r.Some? ==> |r.value| > |OutfilePrefix| + |target| && r.value[..|OutfilePrefix|] == OutfilePrefix
  {
    if report != "" then Some(OutfilePrefix + target + "." + FileExt(report)) else None
  }

  /** Reads a target and an extension back out of an output file name. */
  function ParseOutfile(name: string): Option<(string, string)>
  {
    if |name| >= |OutfilePrefix| && name[..|OutfilePrefix|] == OutfilePrefix then
      var rest := name[|OutfilePrefix|..];
      if |rest| >= 4 && rest[|rest| - 4..] == ".csv" then Some((rest[..|rest| - 4], "csv"))
      else if |rest| >= 5 && rest[|rest| - 5..] == ".xlsx" then Some((rest[..|rest| - 5], "xlsx"))
      else None
    else None
  }

  /** A concatenation splits back into its two parts. */
  lemma SplitAt(a: string, b: string)
    ensures (a + b)[..|a|] == a && (a + b)[|a|..] == b
  {
  }

  /** The output file name records both the target and the report kind. */
  lemma OutfileRoundTrip(report: string, target: string)
    requires report != ""
    ensures ParseOutfile(GetOutfile(report, target).value) == Some((target, FileExt(report)))
  {
    var ext := FileExt(report);
    var suffix := "." + ext;
    var rest := target + suffix;
    assert GetOutfile(report, target).value == OutfilePrefix + rest;
    SplitAt(OutfilePrefix, rest);
    SplitAt(target, suffix);
    if ext == "csv" {
      assert suffix == ".csv";
    } else {
      assert suffix == ".xlsx";
      assert rest[|rest| - 4..] == "xlsx" by {
        assert rest[|rest| - 4..] == suffix[1..];
      }
    }
  }

  /** Two targets scanned with the same report never share an output file. */
  lemma DistinctTargetsDistinctFiles(report: string, t1: string, t2: string)
    requires report != "" && t1 != t2
    ensures GetOutfile(report, t1) != GetOutfile(report, t2)
  {
    OutfileRoundTrip(report, t1);
    OutfileRoundTrip(report, t2);
  }
}
