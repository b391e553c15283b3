/**
 * The stored tables. Each CSV file on the remote drive is read whole into a
 * sequence of rows of text fields and written back whole; the CSV text coding
 * itself is not modelled.
 */
module Store {

  type Row = seq<string>
  type Table = seq<Row>

  /** What downloading one stored table gives. */
  datatype Read =
    | Missing              // no file of that name: the lookup of its id returned nothing
    | Unavailable          // the storage client raised while downloading
    | Present(rows: Table) // the decoded rows; an empty file gives no rows

  /** The first field of a non-empty row, the key every table is searched by. */
  predicate KeyIs(row: Row, key: string) {
    |row| > 0 && row[0] == key
  }
}
