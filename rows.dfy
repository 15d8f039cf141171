/** One CSV row as the dispatcher sees it, its progress marks and its identity. */
module Rows {
  import opened Identity
  import opened Dedup

  datatype Option<T> = None | Some(value: T)

  /** A row as async-csv parses it with `columns: true`: the `email` cell, the
      two progress cells (`None` when the file has no such column, so that the
      property is undefined in JavaScript), and the remaining cells, which the
      dispatcher only carries along. */
  datatype Row = Row(email: string, bulkMailSent: Option<string>, fail: Option<string>, fields: seq<string>)

  /** JavaScript truthiness of a cell: `undefined` and `""` are falsy, every
      other string (including `"0"`) is truthy. */
  predicate Truthy(cell: Option<string>) {
    cell.Some? && cell.value != ""
  }

  /** The value `1` that server.js stores into a progress cell. */
  const Marked: string := "1"

  /** The cells the first filter of the loader meets: a missing column and an
      empty cell let the row through, while `"0"`, `"false"` and the stored
      mark all count as marks. */
  lemma TruthyCells()
    ensures !Truthy(None) && !Truthy(Some(""))
    ensures Truthy(Some("0")) && Truthy(Some("false")) && Truthy(Some(Marked))
  {
  }

  /** `row.bulkMailSent = 1` (server.js:44). */
  function MarkSent(row: Row): (r: Row)
    ensures Truthy(r.bulkMailSent) && r.fail == row.fail
    ensures r.email == row.email && r.fields == row.fields
  {
    row.(bulkMailSent := Some(Marked))
  }

  /** `row.fail = 1` (server.js:83). */
  function MarkFailed(row: Row): (r: Row)
    ensures Truthy(r.fail) && r.bulkMailSent == row.bulkMailSent
    ensures r.email == row.email && r.fields == row.fields
  {
    row.(fail := Some(Marked))
  }

  /** The row was delivered or permanently failed. */
  predicate Terminal(row: Row) {
    Truthy(row.bulkMailSent) || Truthy(row.fail)
  }

  /** The normalized identity of a row. */
  function Key(row: Row): string {
    Normalize(row.email)
  }

  /** The identities of `rows`, in order. */
  function Keys(rows: seq<Row>): seq<string> {
    Project(rows, Key)
  }
}
