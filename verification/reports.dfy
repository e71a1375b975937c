/** A reported table and the heading line both report formats share. */
module Reports {
  import opened Driver

  /** One table whose sample was reported: where it lives, its column
      names and the sampled rows. */
  datatype Finding = Finding(database: string, table: string, columns: seq<string>, rows: seq<Row>)

  /** The heading written above every reported table. */
  function Heading(table: string, database: string, host: string): string
  {
    "[+] Table: " + table + "   Database: " + database + "   Server: " + host
  }
}
