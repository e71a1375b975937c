# enumdb in Dafny

enumdb is a MySQL/MSSQL login brute-forcer and post-login enumerator. For
each target it tries every username with every password. After each
accepted login it walks the server's databases and tables. It flags a table
whose name (or, in column mode, one of whose column names) contains a
sensitive keyword, samples up to 100 rows of it, and writes what it found
to a per-target csv file or xlsx workbook.

This project models one target's run as pure functions over immutable
data:

- `Config`: the keyword lists and blacklists, `db_obj`, `default_port`,
  the effective port, `file_ext` and `get_outfile`.
- `Driver`: the `mysql`/`mssql` driver classes, collapsed into one abstract
  driver over a server snapshot (`Server`). A failing statement yields no
  rows, and each schema listing is the first field of every fetched row.
- `Text`: `str.lower()` and Python's substring test `in`.
- `Reports`: a reported table (`Finding`) and the heading both report
  formats write.
- `CsvReport`: `write_csv`, modelled as text appended to the file contents.
  It comes with a line splitter and a field reader, so that a block can be
  read back.
- `Workbook`: `create_xlsx`, modelled as cell maps keyed by 1-based
  (row, column), plus the overview row counter.
- `Engine`: `enum_db.db_enum`, `db_table_search`, `db_column_search` and
  `db_reporter`. The run is recorded as a trace of events: attempts,
  closes, samples, match notices, empty-set notices and reports. The sink
  is `table_count`, the csv text and the lazily created workbook.
- `Trial`: `enum_db.db_main`, the username-major credential loop, and what
  a whole run of one target establishes.

Two behaviours of the code are kept exactly as written:

- A blacklisted database or table makes `db_enum` `return`, not
  `continue`. The whole remaining enumeration of that connection is
  abandoned, and the model keeps this on purpose. `BlacklistedDatabaseEndsWalk`,
  `BlacklistedTableEndsTables` and `TableBlacklistEndsWalk` state it.
- An unknown database type is fatal at start-up only when no `-port` was
  given (`enumdb.py:423`). With an explicit port, `db_obj` returns `None`,
  and the target's thread dies on its first `connect`, before any attempt.
  It survives only when there is no credential to try. `Trial.DbMain`
  models this as the `Crashed` outcome.

## Model

| member | source | states |
|---|---|---|
| Config.DbObj | enumdb.py:233-237 | a driver exactly for "mysql" and "mssql", the dialect carrying that name; nothing for any other type |
| Config.DefaultPort | enumdb.py:345-353 | defined exactly for the types `db_obj` knows, giving 3306 for mysql and 1433 for mssql; every other type is the invalid-database-type error |
| Config.EffectivePort | enumdb.py:423 | a non-zero `-port` is used as given; port 0 becomes the type's default port, and fails exactly when the type is unknown |
| Config.FileExt | enumdb.py:313-317 | "csv" exactly for the csv report, "xlsx" for every other report |
| Config.GetOutfile | enumdb.py:306-311 | no file exactly when no report is set; otherwise a name that starts with "enumdb_" and is longer than the prefix plus the target |
| Config.OutfileRoundTrip | enumdb.py:306-317 | the output name parses back into the target and the extension `file_ext` chose |
| Config.DistinctTargetsDistinctFiles | enumdb.py:306-311 | two different targets scanned with the same report never share an output file |
| Driver.DbQuery | enumdb.py:117-125 | a failing statement yields no rows; a successful one yields the fetched rows |
| Driver.FirstFields | enumdb.py:127-131 | the name column of a listing: as many names as rows, name i being the first field of row i |
| Driver.Names | enumdb.py:127-145 | a listing's names are empty when the statement fails, and otherwise the first field of each fetched row, in order |
| Driver.GetDatabases | enumdb.py:127-131 | the first field of every row the database listing returns, in order; empty when the listing fails |
| Driver.GetTables | enumdb.py:133-138 | the first field of every row the table listing of the database returns; empty when that listing fails or is unknown |
| Driver.GetColumns | enumdb.py:140-145 | the first field of every row the column listing of the table returns; empty when that listing fails or is unknown |
| Driver.GetData | enumdb.py:147-149 | the sampled rows as fetched; empty when sampling fails or is unknown |
| Text.Lower | enumdb.py:225 | same length as the name, every character lower-cased in place, so that no capital letter is left |
| Text.LowerIgnoresCase | enumdb.py:225 | two names that differ only in the case of their letters have the same lower-cased form |
| Text.LowerKeepsLower | enumdb.py:225 | a name without capitals, such as every shipped keyword and blacklist entry, is its own lower-cased form |
| Text.Contains | enumdb.py:252 | true exactly when the needle occurs as a contiguous piece of the haystack |
| CsvReport.WriteCsv | enumdb.py:281-298 | the file only grows: the old contents stay as a prefix, and exactly `CsvBlock` for this table is appended |
| CsvReport.CsvBlockLines | enumdb.py:283-293 | for values without line ends (double quotes allowed), the lines of a `CsvBlock` are the quoted heading, the column record, one record per data row, then three empty lines |
| CsvReport.CsvBlockRoundTrip | enumdb.py:281-293 | a block of values free of quotes and line ends reads back as the heading, the column names and the rows that were written |
| CsvReport.QuotesNotEscaped | enumdb.py:284-290 | values are not escaped: for any two values a and b, the single value a, then `","`, then b is written exactly like the two values a and b |
| Workbook.AddToOverview | enumdb.py:65-70 | fills columns 1-3 of the current overview row with db, table and the third value; the row counter moves on by one; no other cell and no sheet changes |
| Workbook.SheetTitle | enumdb.py:74 | the table name cut to its first 15 characters: a prefix of the name of length min(15, length of the name) |
| Workbook.RowCells | enumdb.py:79-85 | the values of one row placed in that row from column 1 on, and nothing else |
| Workbook.DataCells | enumdb.py:88-97 | data row r occupies spreadsheet row first + r, item c in column c + 1, and no other cells are used |
| Workbook.NewSheet | enumdb.py:72-97 | the sheet is titled with the cut table name; it has the heading in A1, column i in (2, i+1), and item c of data row r in (3+r, c+1); it holds no other cell |
| Workbook.CreateSheet | enumdb.py:72-98 | appends exactly that table's sheet after the existing ones; the overview and its counter are unchanged |
| Workbook.OverviewStartsEmpty | enumdb.py:52-63 | a fresh workbook from `CreateOverview` has an overview with only the fixed labels, the host and the type; it lists no table, and its next row is 5 |
| Workbook.RecordExtends | enumdb.py:246-247 | recording a finding as `db_reporter` does lists one more finding: overview row 5 + n gets its database, its table and the host; sheet n holds its sample; the next row is 5 + n + 1 |
| Engine.Reporter | enumdb.py:239-248 | `table_count` grows by exactly one; the csv report only appends to the file and leaves the workbook alone; any other report leaves the csv text alone and ends with a workbook |
| Engine.ReporterRenders | enumdb.py:239-248 | if the sink held exactly the findings so far, it then holds them plus the new one: a csv block appended, or the workbook created on the first finding (when `table_count` is 0) and extended by one overview row and one sheet |
| Engine.FreshIsSound | enumdb.py:202-204 | a fresh `enum_db` (count 0, no workbook, empty file) holds no findings |
| Engine.FirstMatch | enumdb.py:251-252 | the first keyword, in list order, contained in the lower-cased name; none exactly when no keyword is contained |
| Engine.FirstColumnMatch | enumdb.py:265-267 | the first (column, keyword) pair that matches, columns outer and keywords inner; none exactly when no column matches any keyword |
| Engine.Sample | enumdb.py:254-261 | the trace only grows, keeping its prefix, and the workbook stays available when the workbook path needs it |
| Engine.SampleNotices | enumdb.py:259-260 | the empty-set notice for a table is given exactly when its sample is empty and the run is verbose, once, and never otherwise |
| Engine.SampleEffect | enumdb.py:254-276 | after a hit there is exactly one `get_data` call; a non-empty sample gets one match notice, and is reported once when a report is set; an empty one leaves the sink unchanged and gets the empty-set notice exactly when the run is verbose; only enumeration events are added |
| Engine.TableKeywordSearch | enumdb.py:250-261 | in `TableSearch` (`db_table_search`), `get_data` runs once when some table keyword occurs in the lower-cased name, and never otherwise; the announced keyword is the first in list order; at most one finding, and only for a non-empty sample with a report set; no match changes nothing |
| Engine.ColumnKeywordSearch | enumdb.py:263-276 | in `ColumnSearch` (`db_column_search`), the first matching column triggers one `get_data` of the whole table; the announced hit is that column; at most one finding, and only for a non-empty sample with a report set; no matching column changes nothing |
| Engine.SearchTableVisits | enumdb.py:228-231 | searching a table samples it once exactly when it is flagged (by its name in table mode, by a column in column mode) and reports exactly its non-empty sample when a report is set; otherwise it samples nothing |
| Engine.SearchTableGrows | enumdb.py:228-231 | searching a table in either mode adds only enumeration events; every finding is a real non-empty sample with the table's columns; the sink stays in step with the findings |
| Engine.EnumTablesVisits | enumdb.py:226-231 | the walk over one database's tables samples exactly its flagged tables, in listed order, up to the first blacklisted table; it is cut short exactly when some listed table is blacklisted |
| Engine.EnumDatabasesVisits | enumdb.py:224-231 | the walk over the databases samples, database by database in listed order, the flagged tables up to the first blacklisted database or table; it is cut short exactly when a listed database or one of its tables is blacklisted |
| Engine.DbEnumGrows | enumdb.py:223-231 | `DbEnum` (`db_enum`) samples exactly the reference walk's tables over the listed databases, in order, and reports exactly their non-empty samples; it adds only enumeration events (no connect or close); it is cut short exactly when a blacklisted name is reached; the sink stays in step with the trace's findings |
| Engine.AbortIsFinal | enumdb.py:224-225 | once a blacklist hit cut the walk short, databases listed later change nothing |
| Engine.BlacklistedDatabaseEndsWalk | enumdb.py:225 | a database whose lower-cased name is blacklisted ends the enumeration; the result is that of the databases before it, and no later database is examined |
| Engine.BlacklistedTableEndsTables | enumdb.py:227 | a blacklisted table ends the walk of its database right there; the tables after it are not searched |
| Engine.BlacklistIgnoresCase | enumdb.py:227 | the table blacklist is compared ignoring case: a table equal up to case to a lower-case entry ends the walk of its database at that table, whatever follows it |
| Engine.DbBlacklistIgnoresCase | enumdb.py:225 | the database blacklist is compared ignoring case: a database equal up to case to a lower-case entry ends the whole enumeration at that database |
| Engine.TableBlacklistEndsWalk | enumdb.py:226-227 | a table-blacklist hit in database k also ends the walk over the databases; nothing after database k is examined |
| Engine.ShippedNeverAborts | enumdb.py:29-32 | with the keyword lists and blacklists as shipped, no enumeration is ever cut short |
| Engine.EmptyBlacklistsNeverAbort | enumdb.py:223-231 | with both blacklists empty, as shipped, the walk is never cut short |
| Trial.Pairs | enumdb.py:213 | the credentials of one user: one pair per password, in password order |
| Trial.CrossProductLength | enumdb.py:212-213 | the username-major cross product has as many entries as the number of users times the number of passwords |
| Trial.CrossProductAt | enumdb.py:212-213 | entry i·P + j of the cross product, P being the number of passwords, is user i with password j |
| Trial.TryCredentialVisits | enumdb.py:214-219 | in `TryCredential`, an accepted login outside brute mode runs `db_enum` once, sampling exactly the walk's tables and reporting their non-empty samples; a refused login or brute mode samples and reports nothing |
| Trial.TryCredentialSteps | enumdb.py:214-219 | one inner-loop pass (`TryCredential`) makes exactly one attempt; an accepted login outside brute mode runs `db_enum` once, sampling exactly the walk's tables, and anything else samples nothing; enumeration happens only inside that session, which is closed before the pass returns |
| Trial.DbMainCrashes | enumdb.py:210-214 | `DbMain` (`db_main`) crashes the thread exactly when the database type has no driver and there is at least one credential to try |
| Trial.DbMainAttempts | enumdb.py:212-214 | `DbMain` calls `connect` once for every credential of the username-major cross product, in that order, users times passwords times in all; a success never stops the loop |
| Trial.DbMainBracketed | enumdb.py:212-219 | in a `DbMain` run every accepted connection is closed before the next attempt; failed attempts are never closed; enumeration happens only while an accepted connection is open |
| Trial.DbMainSamples | enumdb.py:212-219 | the tables a `DbMain` run samples are, in order, one whole walk for every accepted credential of the cross product (none in brute mode); the reported findings are exactly their non-empty samples when a report is set |
| Trial.DbMainBruteOnly | enumdb.py:216 | in brute mode `DbMain` only connects and closes happen; nothing is reported, and no output file is announced |
| Trial.DbMainReport | enumdb.py:206-221 | after `DbMain` the report holds exactly the trace's findings in order (one csv block each, or one overview row and one sheet each), and `table_count` is their number; each is a real non-empty sample; the file is announced exactly when a report is set and something was reported |
| Trial.DbMainSampleBound | enumdb.py:147-149 | assuming the server honours the statement's row limit, no finding holds more than 100 rows |

## Left out

- `main` and its threads, the `activeCount` busy-wait and the keyboard-interrupt handling are not modelled: their point is concurrency. One target's `db_main` is modelled in isolation.
- The real `MySQLdb`/`pymssql` connections, their timeouts and the SQL text are foreign calls. The server is a fixed snapshot: the accepted logins and the outcome of each listing and sampling statement. The two dialects differ only in statement text, so they share one abstract driver. The port is therefore not an input of `Connect`.
- Per-account privileges are not modelled. In the program every listing and sample runs on the connection of the account that logged in (`enumdb.py:214-217`), so two accepted accounts may see different schemas. In the model one snapshot answers every accepted account alike, so each accepted login walks the same databases and tables.
- `mysql.get_tables` first runs `USE <database>`. When that fails, the real server would list the tables of the previously selected database. The snapshot instead records one table listing per database.
- Trial.DbMainSampleBound: the 100-row bound lives only in the SQL text, so it is an assumption about the server (`Driver.WithinLimit`), not something the model enforces.
- Colored console output (`print_*`), the match and empty-data-set notices' formatting, argparse, `file_exists`, `getpass` and `ipparser` are not modelled. The notices appear in the trace as events without their text.
- The file-system effects of `outfile_prep` and `write_file` (exists, remove, open for append) are not modelled. The csv file is a string that starts empty for each target and is only appended to. `Trial.DbMain` assumes the file exists at the end exactly when something was reported into it.
- openpyxl internals and `save_workbook` are not modelled. A workbook is its overview and its sheet cell maps, and the title of a table's sheet is the raw `table[0:15]`. The library renames a title that repeats an existing one; that renaming is not modelled. It refuses a title holding any of the characters `\ / * ? : [ ]` by raising an error. `create_sheet` is called without a handler (`enumdb.py:247`), so that error ends the target's thread. The model does not have that failure: it creates the sheet.
- The "Failed to write data" fallback of `create_sheet` (`enumdb.py:83-84`, `enumdb.py:93-94`) is not modelled. It fires when the spreadsheet library refuses a value, for instance one holding control characters that a cell may not contain. The program then writes "Failed to write data" in that cell. The model writes every value verbatim.
- Text.Lower: folds only the ASCII letters A-Z, while Python's `str.lower()` folds all of Unicode.
- Config.GetOutfile: its contract gives the prefix and the length. The exact name `enumdb_<target>.<ext>` is stated through `Config.OutfileRoundTrip`.
- Values are written into the csv unescaped, as in the code. `CsvReport.CsvBlockRoundTrip` therefore holds only for values without double quotes or line ends, and `CsvReport.QuotesNotEscaped` shows what goes wrong otherwise.
