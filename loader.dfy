/** The startup code of server.js (lines 133-175) before the first tick: the
    template check and the chain of filters that turns the rows parsed from one
    configured CSV file into the rows of a batch. */
module Loader {
  import opened Seqs
  import opened Rows
  import opened Dedup

  // ---------------------------------------------------------------------------
  // The filter chain of server.js:144-148

  /** `.filter(row => !row.bulkMailSent)` (server.js:144). */
  function DropSent(rows: seq<Row>): seq<Row> {
    Filter(rows, (row: Row) => !Truthy(row.bulkMailSent))
  }

  /** `.filter((row, index, array) => array.findIndex(row_ => Key(row_) === Key(row)) === index)`
      (server.js:144-146): keep the first row of each identity. */
  function KeepFirstRows(rows: seq<Row>): seq<Row> {
    KeepFirst(rows, Key)
  }

  /** `.filter(row => !csvRows.find(...))` (server.js:146-147), where `loaded`
      holds the identities of the rows of the batches loaded before. */
  function DropLoaded(rows: seq<Row>, loaded: seq<string>): seq<Row> {
    Filter(rows, (row: Row) => FindIndex(loaded, Key(row)) < 0)
  }

  /** `.filter(row => emailValidator.validate(row.email))` (server.js:148); the
      validator is the parameter `valid`. */
  function DropInvalid(rows: seq<Row>, valid: string -> bool): seq<Row> {
    Filter(rows, (row: Row) => valid(row.email))
  }

  /** The rows a batch is loaded with (server.js:143-148). */
  function LoadRows(parsed: seq<Row>, loaded: seq<string>, valid: string -> bool): seq<Row> {
    DropInvalid(DropLoaded(KeepFirstRows(DropSent(parsed)), loaded), valid)
  }

  // ---------------------------------------------------------------------------
  // What the chain guarantees

  /** A loaded batch is an order-preserving subsequence of the parsed rows;
      it holds no row already marked sent, no identity of an earlier batch,
      only addresses the validator accepts, and no identity twice. */
  lemma LoadRowsSound(parsed: seq<Row>, loaded: seq<string>, valid: string -> bool)
    ensures IsSubseq(LoadRows(parsed, loaded, valid), parsed)
    ensures Distinct(Keys(LoadRows(parsed, loaded, valid)))
    ensures forall x :: x in LoadRows(parsed, loaded, valid) ==>
              !Truthy(x.bulkMailSent) && valid(x.email) && Key(x) !in loaded
  {
    var s1 := DropSent(parsed);
    var s2 := KeepFirstRows(s1);
    var s3 := DropLoaded(s2, loaded);
    var s4 := DropInvalid(s3, valid);
    KeepFirstIsScan(s1, Key);
    ScanSound(s1, Key, {});
    SubseqTrans(s2, s1, parsed);
    SubseqTrans(s3, s2, parsed);
    SubseqTrans(s4, s3, parsed);
    SubseqTrans(s4, s3, s2);
    SubseqKeepsDistinct(s4, s2, Key);
    SubseqMembers(s2, s1);
    SubseqMembers(s4, s2);
  }

  /** Each filter drops a row only for its own reason: a row is loaded exactly
      when it is not marked sent, is the first unsent row with its identity, its
      identity is not in an earlier batch, and the validator accepts it. */
  lemma LoadRowsMembers(parsed: seq<Row>, loaded: seq<string>, valid: string -> bool, x: Row)
    ensures x in LoadRows(parsed, loaded, valid) <==>
              x in parsed && !Truthy(x.bulkMailSent) && FirstWithKey(DropSent(parsed), Key, x)
              && Key(x) !in loaded && valid(x.email)
  {
    KeepFirstMembers(DropSent(parsed), Key, x);
  }

  /** Appending a loaded batch keeps identities unique across all batches. */
  lemma LoadRowsFresh(parsed: seq<Row>, loaded: seq<string>, valid: string -> bool)
    requires Distinct(loaded)
    ensures Distinct(loaded + Keys(LoadRows(parsed, loaded, valid)))
  {
    var r := LoadRows(parsed, loaded, valid);
    LoadRowsSound(parsed, loaded, valid);
    var all := loaded + Keys(r);
    forall i, j | 0 <= i < j < |all| ensures all[i] != all[j] {
      if j >= |loaded| {
        assert all[j] == Key(r[j - |loaded|]);
        if i >= |loaded| {
          assert all[i] == Keys(r)[i - |loaded|];
        }
      }
    }
  }

  /** The first filter looks at the sent mark only: a row a previous run
      gave up on (`fail` set, not sent) is loaded again, and delivering it
      this time leaves it with both marks. */
  lemma FailedRowsReload(row: Row, valid: string -> bool)
    requires Truthy(row.fail) && !Truthy(row.bulkMailSent) && valid(row.email)
    ensures LoadRows([row], [], valid) == [row]
    ensures Truthy(MarkSent(row).fail) && Truthy(MarkSent(row).bulkMailSent)
  {
    var r := LoadRows([row], [], valid);
    assert DropSent([row]) == [row];
    assert FirstWithKey([row], Key, row);
    LoadRowsMembers([row], [], valid, row);
    LoadRowsSound([row], [], valid);
    assert |r| <= 1;
  }

  // ---------------------------------------------------------------------------
  // The template check of server.js:134-138

  /** One entry of `config.csv`; an absent template is the empty string. */
  datatype Source = Source(path: string, template: string)

  datatype Check = Proceed | Refuse(message: string)

  const MissingTemplate: string :=
    "You need to specify a template for each of your csv or/and use a global template using the \"template\" key"

  /** Startup throws when there is no global template and some configured CSV
      has none of its own. */
  function TemplateCheck(globalTemplate: string, sources: seq<Source>): (r: Check)
    ensures r.Refuse? <==> globalTemplate == "" && exists i :: 0 <= i < |sources| && sources[i].template == ""
    ensures r.Refuse? ==> r.message == MissingTemplate
  {
    FilterKeepsAll(sources, (s: Source) => s.template != "");
    if globalTemplate != "" then Proceed
    else if |Filter(sources, (s: Source) => s.template != "")| != |sources| then Refuse(MissingTemplate)
    else Proceed
  }
}
