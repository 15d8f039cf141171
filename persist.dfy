/** Persistence of a batch: after every terminal outcome server.js rewrites the
    whole CSV file of the batch from its in-memory rows with csv-writer
    (server.js:46-49 and 86-89). The file is modelled as the rows a later parse
    of it yields. */
module Persist {
  import opened Rows
  import Loader

  /** Which of the two optional columns a header lists. The `email` column and
      the other parsed columns are listed in every header: every row of a file
      has them. */
  datatype Header = Header(sentColumn: bool, failColumn: bool)

  /** The header server.js passes to csv-writer: the keys of the row just
      processed (server.js:48, 88). */
  function RowHeader(row: Row): (h: Header)
    ensures Cell(row.bulkMailSent, h.sentColumn) == row.bulkMailSent
    ensures Cell(row.fail, h.failColumn) == row.fail
  {
    Header(row.bulkMailSent.Some?, row.fail.Some?)
  }

  /** The header of the corrected writer: a column is listed when any row of
      the batch has it. */
  function BatchHeader(rows: seq<Row>): (h: Header)
    ensures h.sentColumn <==> exists i :: 0 <= i < |rows| && rows[i].bulkMailSent.Some?
    ensures h.failColumn <==> exists i :: 0 <= i < |rows| && rows[i].fail.Some?
  {
    if rows == [] then Header(false, false)
    else
      var h := BatchHeader(rows[1..]);
      assert forall i :: 1 <= i < |rows| ==> rows[1..][i - 1] == rows[i];
      Header(rows[0].bulkMailSent.Some? || h.sentColumn, rows[0].fail.Some? || h.failColumn)
  }

  /** One cell as written under a header and parsed back: a column the header
      does not list is absent; a listed one holds the row's value, or `""`
      when the row has none. */
  function Cell(value: Option<string>, listed: bool): Option<string> {
    if !listed then None else if value.Some? then value else Some("")
  }

  /** `writeRecords(rows)` under `header`, as the next parse reads the file. */
  function WriteRecords(rows: seq<Row>, header: Header): (file: seq<Row>)
    ensures |file| == |rows|
    ensures forall i :: 0 <= i < |rows| ==> file[i].email == rows[i].email && file[i].fields == rows[i].fields
    ensures forall i :: 0 <= i < |rows| ==>
              (file[i].bulkMailSent.Some? <==> header.sentColumn) && (file[i].fail.Some? <==> header.failColumn)
    ensures forall i :: 0 <= i < |rows| ==>
              (Truthy(file[i].bulkMailSent) <==> header.sentColumn && Truthy(rows[i].bulkMailSent)) &&
              (Truthy(file[i].fail) <==> header.failColumn && Truthy(rows[i].fail))
  {
    seq(|rows|, i requires 0 <= i < |rows| =>
      rows[i].(bulkMailSent := Cell(rows[i].bulkMailSent, header.sentColumn),
               fail := Cell(rows[i].fail, header.failColumn)))
  }

  /** The file the corrected writer leaves behind. */
  function Persisted(rows: seq<Row>): seq<Row> {
    WriteRecords(rows, BatchHeader(rows))
  }

  /** As written: when the row just processed has no `bulkMailSent` key (its
      file had no such column and the row exhausted its retries), the header
      omits the column, so no row of the rewritten file is marked sent and the
      first filter of the next start lets every row through again, the
      delivered ones included. */
  lemma RowHeaderForgetsDeliveries(rows: seq<Row>, k: nat)
    requires k < |rows| && rows[k].bulkMailSent.None?
    ensures forall i :: 0 <= i < |rows| ==>
              !Truthy(WriteRecords(rows, RowHeader(rows[k]))[i].bulkMailSent)
    ensures forall i :: 0 <= i < |rows| ==>
              WriteRecords(rows, RowHeader(rows[k]))[i] in Loader.DropSent(WriteRecords(rows, RowHeader(rows[k])))
  {
    var file := WriteRecords(rows, RowHeader(rows[k]));
    assert forall i :: 0 <= i < |rows| ==> file[i] in file;
  }

  /** Corrected: the file keeps every row's identity, payload and both marks. */
  lemma PersistedKeepsMarks(rows: seq<Row>)
    ensures |Persisted(rows)| == |rows|
    ensures forall i :: 0 <= i < |rows| ==>
              Persisted(rows)[i].email == rows[i].email &&
              Persisted(rows)[i].fields == rows[i].fields &&
              (Truthy(Persisted(rows)[i].bulkMailSent) <==> Truthy(rows[i].bulkMailSent)) &&
              (Truthy(Persisted(rows)[i].fail) <==> Truthy(rows[i].fail))
  {
  }

  /** Rewriting a file from its own contents leaves it as it is. */
  lemma PersistIdempotent(rows: seq<Row>)
    ensures Persisted(Persisted(rows)) == Persisted(rows)
  {
    var file := Persisted(rows);
    var h := BatchHeader(rows);
    assert BatchHeader(file) == h by {
      if h.sentColumn {
        var i :| 0 <= i < |rows| && rows[i].bulkMailSent.Some?;
        assert file[i].bulkMailSent.Some?;
      }
      if h.failColumn {
        var i :| 0 <= i < |rows| && rows[i].fail.Some?;
        assert file[i].fail.Some?;
      }
    }
  }

  /** Corrected: reloading the file never admits a row that was delivered. */
  lemma ReloadSkipsDelivered(rows: seq<Row>, loaded: seq<string>, valid: string -> bool)
    ensures forall i :: 0 <= i < |rows| && Truthy(rows[i].bulkMailSent) ==>
              Persisted(rows)[i] !in Loader.LoadRows(Persisted(rows), loaded, valid)
  {
    PersistedKeepsMarks(rows);
    Loader.LoadRowsSound(Persisted(rows), loaded, valid);
  }
}
