/** The batches of `_csv` (server.js:22, 153-167), what a well-formed batch
    looks like, and the bookkeeping the scheduler's invariants are stated with. */
module Batches {
  import opened Seqs
  import opened Rows
  import Persist

  /** One entry of `_csv`: the file it was loaded from, its rows, and the
      number of rows already processed from the front. The mail object,
      template and locals of the entry are not modelled. */
  datatype Batch = Batch(path: string, rows: seq<Row>, cursor: nat)

  predicate Drained(b: Batch) {
    b.cursor == |b.rows|
  }

  /** `_csv.filter(c => c.cursor === c.rows.length).length === _csv.length`
      (server.js:109). */
  predicate AllDrained(bs: seq<Batch>) {
    |Filter(bs, Drained)| == |bs|
  }

  lemma AllDrainedIff(bs: seq<Batch>)
    ensures AllDrained(bs) <==> forall c :: 0 <= c < |bs| ==> Drained(bs[c])
  {
    FilterKeepsAll(bs, Drained);
  }

  /** A batch is never empty; the rows before its cursor are delivered or
      failed, and none from the cursor on is marked sent. */
  ghost predicate WellFormed(b: Batch) {
    0 < |b.rows| && b.cursor <= |b.rows| &&
    (forall i :: 0 <= i < b.cursor ==> Terminal(b.rows[i])) &&
    (forall i :: b.cursor <= i < |b.rows| ==> !Truthy(b.rows[i].bulkMailSent))
  }

  // ---------------------------------------------------------------------------
  // Counting delivered rows

  function SentMark(row: Row): nat {
    if Truthy(row.bulkMailSent) then 1 else 0
  }

  /** The number of rows marked sent. */
  function CountSent(rows: seq<Row>): nat {
    if rows == [] then 0 else SentMark(rows[0]) + CountSent(rows[1..])
  }

  /** The number of rows marked sent across all batches. */
  function SentTotal(bs: seq<Batch>): nat {
    if bs == [] then 0 else SentTotal(bs[..|bs| - 1]) + CountSent(bs[|bs| - 1].rows)
  }

  lemma {:induction false} CountSentNone(rows: seq<Row>)
    requires forall i :: 0 <= i < |rows| ==> !Truthy(rows[i].bulkMailSent)
    ensures CountSent(rows) == 0
  {
    if rows != [] {
      assert forall i :: 1 <= i < |rows| ==> rows[1..][i - 1] == rows[i];
      CountSentNone(rows[1..]);
    }
  }

  /** Replacing one row changes the count by the change of its own mark. */
  lemma {:induction false} CountSentUpdate(rows: seq<Row>, k: nat, row: Row)
    requires k < |rows|
    ensures CountSent(rows[k := row]) + SentMark(rows[k]) == CountSent(rows) + SentMark(row)
  {
    if k == 0 {
      assert rows[k := row][1..] == rows[1..];
    } else {
      assert rows[k := row][1..] == rows[1..][k - 1 := row];
      CountSentUpdate(rows[1..], k - 1, row);
    }
  }

  /** Replacing one batch changes the total by the change of its own count. */
  lemma {:induction false} SentTotalUpdate(bs: seq<Batch>, b: nat, nb: Batch)
    requires b < |bs|
    ensures SentTotal(bs[b := nb]) + CountSent(bs[b].rows) == SentTotal(bs) + CountSent(nb.rows)
  {
    var last := |bs| - 1;
    if b == last {
      assert bs[b := nb][..last] == bs[..last];
    } else {
      assert bs[b := nb][..last] == bs[..last][b := nb];
      SentTotalUpdate(bs[..last], b, nb);
    }
  }

  // ---------------------------------------------------------------------------
  // Identities across batches: `_csv.map(c => c.rows).flat()` (server.js:143)

  function Identities(bs: seq<Batch>): seq<string> {
    if bs == [] then [] else Identities(bs[..|bs| - 1]) + Keys(bs[|bs| - 1].rows)
  }

  /** An identity is in the list exactly when some row of some loaded batch
      carries it. */
  lemma {:induction false} IdentitiesMembers(bs: seq<Batch>, k: string)
    ensures k in Identities(bs) <==>
            exists c, i :: 0 <= c < |bs| && 0 <= i < |bs[c].rows| && Key(bs[c].rows[i]) == k
  {
    if bs != [] {
      var init := bs[..|bs| - 1];
      var last := bs[|bs| - 1];
      IdentitiesMembers(init, k);
      assert k in Identities(bs) <==> k in Identities(init) || k in Keys(last.rows);
      if k in Keys(last.rows) {
        var i :| 0 <= i < |Keys(last.rows)| && Keys(last.rows)[i] == k;
        assert Key(bs[|bs| - 1].rows[i]) == k;
      }
      if exists c, i :: 0 <= c < |bs| && 0 <= i < |bs[c].rows| && Key(bs[c].rows[i]) == k {
        var c, i :| 0 <= c < |bs| && 0 <= i < |bs[c].rows| && Key(bs[c].rows[i]) == k;
        if c < |bs| - 1 {
          assert init[c] == bs[c];
        } else {
          assert Keys(last.rows)[i] == k;
        }
      }
    }
  }

  /** Updating rows without touching their addresses keeps the identities. */
  lemma {:induction false} IdentitiesUpdate(bs: seq<Batch>, b: nat, nb: Batch)
    requires b < |bs| && Keys(nb.rows) == Keys(bs[b].rows)
    ensures Identities(bs[b := nb]) == Identities(bs)
  {
    var last := |bs| - 1;
    if b == last {
      assert bs[b := nb][..last] == bs[..last];
    } else {
      assert bs[b := nb][..last] == bs[..last][b := nb];
      IdentitiesUpdate(bs[..last], b, nb);
    }
  }

  // ---------------------------------------------------------------------------
  // The rewrites of the batch files

  /** One `writeRecords(csv_.rows)` on the file of batch `batch`: the rows
      handed to the writer and the header the writer was created with, the
      keys of the row just processed (server.js:48, 88). */
  datatype Snapshot = Snapshot(batch: nat, rows: seq<Row>, header: Persist.Header)

  /** The file a rewrite leaves behind, as the next parse reads it. */
  function Written(s: Snapshot): seq<Row> {
    Persist.WriteRecords(s.rows, s.header)
  }

  /** The rewrite that follows an exhausted row takes its header from that
      row: in a file without a `bulkMailSent` column, the file it leaves
      behind carries no sent mark at all, whatever was delivered before. */
  lemma ExhaustedRewriteForgets(b: nat, rows: seq<Row>, k: nat)
    requires k < |rows| && rows[k].bulkMailSent.None?
    ensures var marked := Settled(rows[k], false);
            var s := Snapshot(b, rows[k := marked], Persist.RowHeader(marked));
            |Written(s)| == |rows| && forall i :: 0 <= i < |rows| ==> !Truthy(Written(s)[i].bulkMailSent)
  {
    var marked := Settled(rows[k], false);
    Persist.RowHeaderForgetsDeliveries(rows[k := marked], k);
  }

  /** The rows of the last rewrite of batch `b`'s file, if there was one. */
  function LastWritten(log: seq<Snapshot>, b: nat): Option<seq<Row>> {
    if log == [] then None
    else if log[|log| - 1].batch == b then Some(log[|log| - 1].rows)
    else LastWritten(log[..|log| - 1], b)
  }

  lemma LastWrittenAppend(log: seq<Snapshot>, s: Snapshot, b: nat)
    ensures LastWritten(log + [s], b) == if s.batch == b then Some(s.rows) else LastWritten(log, b)
  {
    assert (log + [s])[..|log|] == log;
  }

  // ---------------------------------------------------------------------------
  // Processing rows in order

  /** A row after its terminal outcome: marked sent when it was delivered
      (server.js:44), marked failed when its retries ran out (server.js:83). */
  function Settled(row: Row, delivered: bool): (r: Row)
    ensures r.email == row.email && r.fields == row.fields
    ensures Terminal(r)
    ensures Truthy(r.bulkMailSent) <==> delivered || Truthy(row.bulkMailSent)
  {
    if delivered then MarkSent(row) else MarkFailed(row)
  }

  /** `after` is `before` once rows `cursor ..` of batch `b` have been settled
      in order, the j-th of them as delivered exactly when `delivered[j]`;
      nothing else differs. */
  ghost predicate Processed(before: seq<Batch>, after: seq<Batch>, b: nat, delivered: seq<bool>) {
    b < |before| && |after| == |before| &&
    (forall c :: 0 <= c < |before| && c != b ==> after[c] == before[c]) &&
    after[b].path == before[b].path &&
    |after[b].rows| == |before[b].rows| &&
    after[b].cursor == before[b].cursor + |delivered| &&
    (forall i :: 0 <= i < |before[b].rows| && !(before[b].cursor <= i < after[b].cursor) ==>
       after[b].rows[i] == before[b].rows[i]) &&
    (forall i :: before[b].cursor <= i < after[b].cursor && i < |before[b].rows| ==>
       after[b].rows[i] == Settled(before[b].rows[i], delivered[i - before[b].cursor]))
  }

  lemma ProcessedStep(b0: seq<Batch>, b1: seq<Batch>, b2: seq<Batch>, b: nat, ds: seq<bool>, d: bool)
    requires Processed(b0, b1, b, ds) && Processed(b1, b2, b, [d])
    requires b1[b].cursor < |b1[b].rows|
    ensures Processed(b0, b2, b, ds + [d])
  {
    var k := b1[b].cursor;
    var all := ds + [d];
    forall i | b0[b].cursor <= i < b2[b].cursor && i < |b0[b].rows|
      ensures b2[b].rows[i] == Settled(b0[b].rows[i], all[i - b0[b].cursor])
    {
      if i < k {
        assert b2[b].rows[i] == b1[b].rows[i];
        assert all[i - b0[b].cursor] == ds[i - b0[b].cursor];
      } else {
        assert b1[b].rows[i] == b0[b].rows[i];
      }
    }
  }

  /** Entry `|log0| + j` of `log` is the rewrite that follows the j-th row
      settled from the cursor of batch `b` (server.js:46-49, 86-89): the rows
      settled so far, the untouched rest of the batch, and the keys of the
      row just settled as header. */
  ghost predicate RewriteAt(log0: seq<Snapshot>, log: seq<Snapshot>, before: seq<Batch>, after: seq<Batch>,
                            b: nat, j: nat) {
    b < |before| && b < |after| &&
    var c := before[b].cursor + j;
    |log0| + j < |log| && c < |after[b].rows| && c < |before[b].rows| &&
    log[|log0| + j] == Snapshot(b, after[b].rows[..c + 1] + before[b].rows[c + 1..],
                                Persist.RowHeader(after[b].rows[c]))
  }

  /** `log` is `log0` followed by one rewrite per row settled, in order. */
  ghost predicate Rewrites(log0: seq<Snapshot>, log: seq<Snapshot>, before: seq<Batch>, after: seq<Batch>,
                           b: nat, n: nat) {
    |log| == |log0| + n && log0 <= log &&
    forall j :: 0 <= j < n ==> RewriteAt(log0, log, before, after, b, j)
  }

  /** Settling one more row and logging its rewrite extends `Rewrites`. */
  lemma RewritesStep(log0: seq<Snapshot>, log1: seq<Snapshot>, start: seq<Batch>, b1: seq<Batch>,
                     b2: seq<Batch>, b: nat, ds: seq<bool>, d: bool)
    requires Rewrites(log0, log1, start, b1, b, |ds|)
    requires Processed(start, b1, b, ds) && Processed(b1, b2, b, [d]) && Processed(start, b2, b, ds + [d])
    requires b1[b].cursor < |b1[b].rows|
    ensures Rewrites(log0, log1 + [Snapshot(b, b2[b].rows, Persist.RowHeader(b2[b].rows[b1[b].cursor]))],
                     start, b2, b, |ds| + 1)
  {
    var k := b1[b].cursor;
    var log2 := log1 + [Snapshot(b, b2[b].rows, Persist.RowHeader(b2[b].rows[k]))];
    forall j | 0 <= j < |ds| + 1 ensures RewriteAt(log0, log2, start, b2, b, j) {
      var c := start[b].cursor + j;
      if j < |ds| {
        assert RewriteAt(log0, log1, start, b1, b, j);
        assert b2[b].rows[..c + 1] == b1[b].rows[..c + 1];
        assert log2[|log0| + j] == log1[|log0| + j];
      } else {
        assert c == k;
        assert b2[b].rows == b2[b].rows[..c + 1] + start[b].rows[c + 1..];
      }
    }
  }

  // ---------------------------------------------------------------------------
  // The batch list as the scheduler keeps it

  /** `idx` points at a batch once there is one; every batch is well formed;
      the batches before `idx` are drained and those after it untouched. */
  ghost predicate Scheduled(bs: seq<Batch>, idx: nat) {
    AllWellFormed(bs) && Positioned(bs, idx)
  }

  ghost predicate AllWellFormed(bs: seq<Batch>) {
    forall c :: 0 <= c < |bs| ==> WellFormed(bs[c])
  }

  ghost predicate Positioned(bs: seq<Batch>, idx: nat) {
    (if bs == [] then idx == 0 else idx < |bs|) &&
    (forall c :: 0 <= c < idx && c < |bs| ==> Drained(bs[c])) &&
    (forall c :: idx < c < |bs| ==> bs[c].cursor == 0)
  }

  /** The last rewrite of every batch with processed rows wrote the batch's
      current rows. */
  ghost predicate Recorded(bs: seq<Batch>, log: seq<Snapshot>) {
    forall c :: 0 <= c < |bs| && bs[c].cursor > 0 ==> LastWritten(log, c) == Some(bs[c].rows)
  }

  lemma ScheduledAppend(bs: seq<Batch>, idx: nat, nb: Batch)
    requires Scheduled(bs, idx) && WellFormed(nb) && nb.cursor == 0
    ensures Scheduled(bs + [nb], idx)
  {
  }

  lemma RecordedAppend(bs: seq<Batch>, log: seq<Snapshot>, nb: Batch)
    requires Recorded(bs, log) && nb.cursor == 0
    ensures Recorded(bs + [nb], log)
  {
  }

  lemma SentTotalAppend(bs: seq<Batch>, nb: Batch)
    ensures SentTotal(bs + [nb]) == SentTotal(bs) + CountSent(nb.rows)
  {
    assert (bs + [nb])[..|bs|] == bs;
  }

  lemma IdentitiesAppend(bs: seq<Batch>, nb: Batch)
    ensures Identities(bs + [nb]) == Identities(bs) + Keys(nb.rows)
  {
    assert (bs + [nb])[..|bs|] == bs;
  }

  /** The batch once the row at its cursor is replaced by `marked` and the
      cursor has moved past it. */
  function Advance(b: Batch, marked: Row): (r: Batch)
    requires b.cursor < |b.rows|
    ensures r.path == b.path && |r.rows| == |b.rows| && r.cursor == b.cursor + 1
    ensures r.rows[b.cursor] == marked
    ensures forall i :: 0 <= i < |b.rows| && i != b.cursor ==> r.rows[i] == b.rows[i]
  {
    b.(rows := b.rows[b.cursor := marked], cursor := b.cursor + 1)
  }

  /** Settling the row at the cursor of the current batch keeps the batch
      list scheduled, and processes exactly that row with that outcome. */
  lemma ScheduledAdvance(bs: seq<Batch>, idx: nat, delivered: bool)
    requires Scheduled(bs, idx) && bs != [] && !Drained(bs[idx])
    ensures var marked := Settled(bs[idx].rows[bs[idx].cursor], delivered);
            Scheduled(bs[idx := Advance(bs[idx], marked)], idx) &&
            Processed(bs, bs[idx := Advance(bs[idx], marked)], idx, [delivered])
  {
    var nb := Advance(bs[idx], Settled(bs[idx].rows[bs[idx].cursor], delivered));
    assert WellFormed(nb);
  }

  lemma SentTotalAdvance(bs: seq<Batch>, idx: nat, marked: Row)
    requires idx < |bs| && WellFormed(bs[idx]) && !Drained(bs[idx])
    ensures SentTotal(bs[idx := Advance(bs[idx], marked)]) == SentTotal(bs) + SentMark(marked)
  {
    var b := bs[idx];
    CountSentUpdate(b.rows, b.cursor, marked);
    SentTotalUpdate(bs, idx, Advance(b, marked));
  }

  lemma IdentitiesAdvance(bs: seq<Batch>, idx: nat, marked: Row)
    requires idx < |bs| && bs[idx].cursor < |bs[idx].rows|
    requires marked.email == bs[idx].rows[bs[idx].cursor].email
    ensures Identities(bs[idx := Advance(bs[idx], marked)]) == Identities(bs)
  {
    var nb := Advance(bs[idx], marked);
    assert forall i :: 0 <= i < |nb.rows| ==> Key(nb.rows[i]) == Key(bs[idx].rows[i]);
    assert Keys(nb.rows) == Keys(bs[idx].rows);
    IdentitiesUpdate(bs, idx, nb);
  }

  lemma RecordedAdvance(bs: seq<Batch>, log: seq<Snapshot>, idx: nat, nb: Batch, header: Persist.Header)
    requires Recorded(bs, log) && idx < |bs|
    ensures Recorded(bs[idx := nb], log + [Snapshot(idx, nb.rows, header)])
  {
    forall c | 0 <= c < |bs| {
      LastWrittenAppend(log, Snapshot(idx, nb.rows, header), c);
    }
  }

  /** When the current batch is drained and some batch is not, the next batch
      exists and the list is scheduled with it as the current one. */
  lemma ScheduledNext(bs: seq<Batch>, idx: nat)
    requires Scheduled(bs, idx) && bs != [] && Drained(bs[idx]) && !AllDrained(bs)
    ensures idx + 1 < |bs| && Scheduled(bs, idx + 1)
  {
    AllDrainedIff(bs);
    var c :| 0 <= c < |bs| && !Drained(bs[c]);
    assert idx < c;
  }
}
