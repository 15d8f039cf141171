/** The scheduler of server.js: its module state (lines 19-24), `sendMail`
    (lines 30-94), `run` (lines 96-131) and the startup sequence (lines 133-175).
    Timers become the `Action` a tick returns, the clock becomes the `hour`
    argument of a tick, the mail transport becomes the oracle `send`, and the
    e-mail validator becomes the predicate `valid`. */
module Dispatch {
  import opened Seqs
  import opened Rows
  import opened Loader
  import opened Retry
  import opened Batches
  import Persist

  /** What `run` arranges next, instead of arming a timer. */
  datatype Action =
    | Stop          // every batch is drained; no timer is armed (server.js:109-112)
    | ReTickNow     // quota left: `run()` is called again at once (server.js:118-120)
    | WaitInterval  // quota used up: the next tick comes after `config.interval` (server.js:121-124)
    | WaitPoll      // the hour is not eligible: the next tick comes after 5 minutes (server.js:127-130)

  function Min(a: int, b: int): int {
    if a <= b then a else b
  }

  /** The transport calls for one row (server.js:68-92): call `send` first
      with call number `attempt`, and call again while it fails and the
      global retry counter, incremented before each retry, is below
      `retryMax`. Returns whether a call succeeded, the number of the next
      call and the counter as the loop leaves it. */
  method Transmit(send: nat -> bool, attempt: nat, retryCount: nat, retryMax: nat)
    returns (ok: bool, next: nat, count: nat)
    requires retryCount <= retryMax
    ensures SendWithRetries(send, attempt, retryCount, retryMax) ==
              if ok then Delivered(count, next) else Exhausted(next)
    ensures retryCount <= count <= retryMax
  {
    next, count := attempt, retryCount;
    ok := send(next);
    next := next + 1;
    while !ok && count < retryMax
      invariant retryCount <= count <= retryMax
      invariant next >= 1 && ok == send(next - 1)
      invariant SendWithRetries(send, next - 1, count, retryMax) == SendWithRetries(send, attempt, retryCount, retryMax)
      decreases retryMax - count
    {
      count := count + 1;
      ok := send(next);
      next := next + 1;
    }
  }

  /** Appending a batch loaded against the identities of the batches before
      it keeps the batch list scheduled, identities unique, the rewrites
      recorded, and the number of sent rows unchanged. */
  lemma AppendLoaded(bs: seq<Batch>, idx: nat, log: seq<Snapshot>, nb: Batch, parsed: seq<Row>, valid: string -> bool)
    requires Scheduled(bs, idx) && Distinct(Identities(bs)) && Recorded(bs, log)
    requires nb.rows == LoadRows(parsed, Identities(bs), valid) && nb.rows != [] && nb.cursor == 0
    ensures Scheduled(bs + [nb], idx) && Distinct(Identities(bs + [nb])) && Recorded(bs + [nb], log)
    ensures SentTotal(bs + [nb]) == SentTotal(bs)
  {
    LoadRowsSound(parsed, Identities(bs), valid);
    LoadRowsFresh(parsed, Identities(bs), valid);
    AppendFresh(bs, idx, log, nb);
  }

  /** The part of `AppendLoaded` that needs only what the loader guarantees:
      the new rows are unsent and bring identities new to the list. */
  lemma AppendFresh(bs: seq<Batch>, idx: nat, log: seq<Snapshot>, nb: Batch)
    requires Scheduled(bs, idx) && Recorded(bs, log)
    requires nb.rows != [] && nb.cursor == 0
    requires forall x :: x in nb.rows ==> !Truthy(x.bulkMailSent)
    requires Distinct(Identities(bs) + Keys(nb.rows))
    ensures Scheduled(bs + [nb], idx) && Distinct(Identities(bs + [nb])) && Recorded(bs + [nb], log)
    ensures SentTotal(bs + [nb]) == SentTotal(bs)
  {
    CountSentNone(nb.rows);
    assert WellFormed(nb);
    ScheduledAppend(bs, idx, nb);
    RecordedAppend(bs, log, nb);
    SentTotalAppend(bs, nb);
    IdentitiesAppend(bs, nb);
  }

  class Dispatcher {
    /** `config.rate`, `config.retry_count` and `config.hours`. */
    const rate: nat
    const retryMax: nat
    const hours: seq<int>

    /** `_csv`, `_csvIndex`, `_mailCount`, `_hourMailCount` and `_retryCount`. */
    var batches: seq<Batch>
    var csvIndex: nat
    var mailCount: nat
    var hourMailCount: nat
    var retryCount: nat
    /** The number of transport calls made so far: `send(calls)` is the answer
        to the next one. */
    var calls: nat
    /** Every rewrite of a batch file, oldest first. */
    ghost var log: seq<Snapshot>

    /** The invariant that holds between any two operations, also in the
        middle of a tick:
        - the batch list is scheduled around `_csvIndex`;
        - the retry counter stays within `retry_count`;
        - `_mailCount` is the number of rows marked sent;
        - no identity occurs twice across all batches;
        - the last rewrite of every batch that has processed rows wrote its
          current rows. */
    ghost predicate Consistent()
      reads this
    {
      Scheduled(batches, csvIndex) &&
      retryCount <= retryMax &&
      mailCount == SentTotal(batches) &&
      Distinct(Identities(batches)) &&
      Recorded(batches, log)
    }

    /** Between ticks, also `_hourMailCount <= config.rate`. */
    ghost predicate Valid()
      reads this
    {
      Consistent() && hourMailCount <= rate
    }

    /** The module state before startup (server.js:19-24). */
    constructor (rate: nat, retryMax: nat, hours: seq<int>)
      ensures Valid()
      ensures this.rate == rate && this.retryMax == retryMax && this.hours == hours
      ensures batches == [] && csvIndex == 0 && mailCount == 0 && hourMailCount == 0
      ensures retryCount == 0 && calls == 0 && log == []
    {
      this.rate := rate;
      this.retryMax := retryMax;
      this.hours := hours;
      batches := [];
      csvIndex := 0;
      mailCount := 0;
      hourMailCount := 0;
      retryCount := 0;
      calls := 0;
      log := [];
    }

    /** One iteration of the startup loop (server.js:141-169): filter the rows
        parsed from one CSV file against the batches loaded so far, skip the
        file when nothing is left, and otherwise append a batch at cursor 0. */
    method AddCsv(path: string, parsed: seq<Row>, valid: string -> bool) returns (added: bool)
      requires Valid()
      modifies this
      ensures Valid()
      ensures added <==> LoadRows(parsed, old(Identities(batches)), valid) != []
      ensures batches == if added then old(batches) + [Batch(path, LoadRows(parsed, old(Identities(batches)), valid), 0)]
                         else old(batches)
      ensures csvIndex == old(csvIndex) && mailCount == old(mailCount) && hourMailCount == old(hourMailCount)
      ensures retryCount == old(retryCount) && calls == old(calls) && log == old(log)
    {
      var loaded := Identities(batches);
      var rows := LoadRows(parsed, loaded, valid);
      if rows == [] {
        return false;
      }
      var nb := Batch(path, rows, 0);
      AppendLoaded(batches, csvIndex, log, nb, parsed, valid);
      batches := batches + [nb];
      added := true;
    }

    /** The terminal outcome of the row at the cursor of the current batch.
        A delivery (server.js:44-52) marks the row sent, rewrites the file,
        moves the cursor and counts the mail; the retry counter keeps the
        value `count` the retries left it at. Exhaustion (server.js:82-89)
        resets the counter, marks the row failed, moves the cursor and
        rewrites the file. */
    method Settle(delivered: bool, count: nat)
      requires Consistent() && batches != [] && !Drained(batches[csvIndex]) && count <= retryMax
      modifies this
      ensures Consistent()
      ensures csvIndex == old(csvIndex) && calls == old(calls)
      ensures Processed(old(batches), batches, csvIndex, [delivered])
      ensures retryCount == if delivered then count else 0
      ensures mailCount == old(mailCount) + (if delivered then 1 else 0)
      ensures hourMailCount == old(hourMailCount) + (if delivered then 1 else 0)
      ensures log == old(log) + [Snapshot(csvIndex, batches[csvIndex].rows,
                                          Persist.RowHeader(batches[csvIndex].rows[old(batches[csvIndex].cursor)]))]
    {
      var b := csvIndex;
      var batch := batches[b];
      var marked := Settled(batch.rows[batch.cursor], delivered);
      var nb := Advance(batch, marked);
      var header := Persist.RowHeader(marked);
      ScheduledAdvance(batches, b, delivered);
      SentTotalAdvance(batches, b, marked);
      IdentitiesAdvance(batches, b, marked);
      RecordedAdvance(batches, log, b, nb, header);
      batches := batches[b := nb];
      log := log + [Snapshot(b, nb.rows, header)];
      var gained := if delivered then 1 else 0;
      assert SentMark(marked) == gained;
      hourMailCount := hourMailCount + gained;
      mailCount := mailCount + gained;
      retryCount := if delivered then count else 0;
    }

    /** `sendMail(csv_, row)` for the row at the cursor of the current batch
        (server.js:30-94): call the transport, retrying on failure while the
        global retry counter is below `retry_count`, then settle the row as
        delivered or failed. Either way the cursor moves past the row. */
    method SendMail(send: nat -> bool) returns (delivered: bool)
      requires Consistent() && batches != [] && !Drained(batches[csvIndex])
      modifies this
      ensures Consistent()
      ensures csvIndex == old(csvIndex)
      ensures Processed(old(batches), batches, csvIndex, [delivered])
      ensures var o := SendWithRetries(send, old(calls), old(retryCount), retryMax);
              delivered == o.Delivered? && calls == o.next &&
              retryCount == if o.Delivered? then o.retryCount else 0
      ensures mailCount == old(mailCount) + (if delivered then 1 else 0)
      ensures hourMailCount == old(hourMailCount) + (if delivered then 1 else 0)
      ensures log == old(log) + [Snapshot(csvIndex, batches[csvIndex].rows,
                                          Persist.RowHeader(batches[csvIndex].rows[old(batches[csvIndex].cursor)]))]
    {
      var ok, call, rc := Transmit(send, calls, retryCount, retryMax);
      calls := call;
      Settle(ok, rc);
      delivered := ok;
    }

    /** The loop of server.js:103-108: process rows of the current batch
        from its cursor until the batch is drained or `rate - _hourMailCount`
        rows have been processed. */
    method Drain(send: nat -> bool) returns (count: nat, ghost delivered: seq<bool>)
      requires Valid() && batches != []
      modifies this
      ensures Valid() && csvIndex == old(csvIndex)
      ensures count == |delivered| == Min(|old(batches)[csvIndex].rows| - old(batches)[csvIndex].cursor,
                                          rate - old(hourMailCount))
      ensures SendRows(send, old(calls), old(retryCount), retryMax, count) == Run(delivered, calls, retryCount)
      ensures Processed(old(batches), batches, csvIndex, delivered)
      ensures mailCount == old(mailCount) + Deliveries(delivered)
      ensures hourMailCount == old(hourMailCount) + Deliveries(delivered)
      ensures Rewrites(old(log), log, old(batches), batches, csvIndex, count)
    {
      var b := csvIndex;
      var rateDiff := rate - hourMailCount;
      count := 0;
      delivered := [];
      var i := batches[b].cursor;
      while i < |batches[b].rows| && count < rateDiff
        invariant Consistent() && csvIndex == b
        invariant 0 <= count <= rateDiff && |delivered| == count
        invariant SendRows(send, old(calls), old(retryCount), retryMax, count) == Run(delivered, calls, retryCount)
        invariant Processed(old(batches), batches, b, delivered)
        invariant i == batches[b].cursor
        invariant mailCount == old(mailCount) + Deliveries(delivered)
        invariant hourMailCount == old(hourMailCount) + Deliveries(delivered)
        invariant Rewrites(old(log), log, old(batches), batches, b, count)
        decreases |batches[b].rows| - i
      {
        delivered := DrainStep(send, old(batches), old(calls), old(retryCount), old(mailCount),
                               old(hourMailCount), old(log), delivered);
        count := count + 1;
        i := i + 1;
      }
    }

    /** One round of the loop of server.js:103-108, stated against the state
        the loop started from: `ds` says which of the rows processed so far
        were delivered. */
    method DrainStep(send: nat -> bool, ghost start: seq<Batch>, ghost calls0: nat, ghost retry0: nat,
                     ghost mail0: nat, ghost hour0: nat, ghost log0: seq<Snapshot>, ghost ds: seq<bool>)
      returns (ghost ds': seq<bool>)
      requires Consistent() && batches != [] && !Drained(batches[csvIndex]) && retry0 <= retryMax
      requires SendRows(send, calls0, retry0, retryMax, |ds|) == Run(ds, calls, retryCount)
      requires Processed(start, batches, csvIndex, ds)
      requires mailCount == mail0 + Deliveries(ds) && hourMailCount == hour0 + Deliveries(ds)
      requires Rewrites(log0, log, start, batches, csvIndex, |ds|)
      modifies this
      ensures Consistent() && batches != [] && csvIndex == old(csvIndex) && |ds'| == |ds| + 1
      ensures batches[csvIndex].cursor == old(batches[csvIndex].cursor) + 1
      ensures SendRows(send, calls0, retry0, retryMax, |ds'|) == Run(ds', calls, retryCount)
      ensures Processed(start, batches, csvIndex, ds')
      ensures mailCount == mail0 + Deliveries(ds') && hourMailCount == hour0 + Deliveries(ds')
      ensures Rewrites(log0, log, start, batches, csvIndex, |ds'|)
    {
      ghost var before := batches;
      ghost var logBefore := log;
      SendRowsStep(send, calls0, retry0, retryMax, |ds|, Run(ds, calls, retryCount));
      var delivered := SendMail(send);
      ProcessedStep(start, before, batches, csvIndex, ds, delivered);
      DeliveriesAppend(ds, delivered);
      RewritesStep(log0, logBefore, start, before, batches, csvIndex, ds, delivered);
      ds' := ds + [delivered];
    }

    /** One call of `run` (server.js:96-131) at hour `hour` of the day. */
    method Tick(hour: int, send: nat -> bool) returns (action: Action, ghost delivered: seq<bool>)
      requires Valid() && batches != []
      modifies this
      ensures Valid()
      ensures hour !in hours ==>
                action == WaitPoll && batches == old(batches) && csvIndex == old(csvIndex) &&
                mailCount == old(mailCount) && hourMailCount == old(hourMailCount) &&
                retryCount == old(retryCount) && calls == old(calls) && log == old(log)
      ensures hour in hours ==> action != WaitPoll
      ensures hour in hours ==>
                |delivered| == Min(|old(batches)[old(csvIndex)].rows| - old(batches)[old(csvIndex)].cursor,
                                   rate - old(hourMailCount)) &&
                SendRows(send, old(calls), old(retryCount), retryMax, |delivered|) ==
                  Run(delivered, calls, retryCount) &&
                Processed(old(batches), batches, old(csvIndex), delivered) &&
                mailCount == old(mailCount) + Deliveries(delivered)
      ensures hour in hours ==> Rewrites(old(log), log, old(batches), batches, old(csvIndex), |delivered|)
      ensures hour in hours ==> (action == Stop <==> AllDrained(batches))
      ensures action == Stop ==>
                csvIndex == old(csvIndex) && hourMailCount == old(hourMailCount) + (mailCount - old(mailCount))
      ensures action == ReTickNow || action == WaitInterval ==>
                csvIndex == old(csvIndex) + (if Drained(batches[old(csvIndex)]) then 1 else 0)
      ensures action == ReTickNow ==>
                hourMailCount == old(hourMailCount) + (mailCount - old(mailCount)) < rate
      ensures action == WaitInterval ==>
                hourMailCount == 0 && old(hourMailCount) + (mailCount - old(mailCount)) == rate
    {
      if hour !in hours {
        return WaitPoll, [];
      }
      var count;
      count, delivered := Drain(send);
      action := Decide();
    }

    /** What `run` does once the loop is over (server.js:109-125): stop when
        every batch is drained; otherwise move to the next batch when the
        current one is drained, then tick again at once when quota is left,
        or reset the hourly count and wait for the next window. */
    method Decide() returns (action: Action)
      requires Consistent() && batches != []
      modifies this
      ensures Consistent()
      ensures batches == old(batches) && mailCount == old(mailCount) && retryCount == old(retryCount)
      ensures calls == old(calls) && log == old(log)
      ensures action != WaitPoll
      ensures action == Stop <==> AllDrained(batches)
      ensures action == Stop ==> csvIndex == old(csvIndex) && hourMailCount == old(hourMailCount)
      ensures action != Stop ==> csvIndex == old(csvIndex) + (if Drained(batches[old(csvIndex)]) then 1 else 0)
      ensures action == ReTickNow ==> hourMailCount == old(hourMailCount) < rate
      ensures action == WaitInterval ==> hourMailCount == 0 && old(hourMailCount) >= rate
    {
      AllDrainedIff(batches);
      if AllDrained(batches) {
        action := Stop;
      } else {
        if batches[csvIndex].cursor == |batches[csvIndex].rows| {
          ScheduledNext(batches, csvIndex);
          csvIndex := csvIndex + 1;
        }
        if hourMailCount < rate {
          action := ReTickNow;
        } else {
          hourMailCount := 0;
          action := WaitInterval;
        }
      }
    }

    /** The loop of server.js:141-169 over the configured CSV files, with
        `parsed[i]` the rows read from the file of `sources[i]`. `origin`
        maps each batch to the source it came from. */
    method AddAll(sources: seq<Source>, parsed: seq<seq<Row>>, valid: string -> bool) returns (ghost origin: seq<nat>)
      requires Valid() && batches == [] && |parsed| == |sources|
      modifies this
      ensures Valid()
      ensures csvIndex == old(csvIndex) && mailCount == old(mailCount) && hourMailCount == old(hourMailCount)
      ensures retryCount == old(retryCount) && calls == old(calls) && log == old(log)
      ensures Traced(batches, origin, sources, parsed, Loading(valid), |sources|)
    {
      origin := [];
      var i := 0;
      while i < |sources|
        invariant 0 <= i <= |sources|
        invariant Valid()
        invariant csvIndex == old(csvIndex) && mailCount == old(mailCount) && hourMailCount == old(hourMailCount)
        invariant retryCount == old(retryCount) && calls == old(calls) && log == old(log)
        invariant Traced(batches, origin, sources, parsed, Loading(valid), i)
      {
        origin := AddSource(sources, parsed, valid, i, origin);
        i := i + 1;
      }
    }

    /** One round of the loop of server.js:141-169: read source `i`. */
    method AddSource(sources: seq<Source>, parsed: seq<seq<Row>>, valid: string -> bool, i: nat,
                     ghost origin: seq<nat>)
      returns (ghost origin': seq<nat>)
      requires Valid() && i < |sources| && Traced(batches, origin, sources, parsed, Loading(valid), i)
      modifies this
      ensures Valid() && Traced(batches, origin', sources, parsed, Loading(valid), i + 1)
      ensures csvIndex == old(csvIndex) && mailCount == old(mailCount) && hourMailCount == old(hourMailCount)
      ensures retryCount == old(retryCount) && calls == old(calls) && log == old(log)
    {
      ghost var prior := batches;
      var added := AddCsv(sources[i].path, parsed[i], valid);
      if added {
        TracedAppend(prior, origin, sources, parsed, Loading(valid), i);
        origin' := origin + [i];
      } else {
        TracedSkip(prior, origin, sources, parsed, Loading(valid), i);
        origin' := origin;
      }
    }
  }

  /** The number of entries of `origin` below `i`: with `origin` increasing,
      the number of batches loaded before source `i` was read. */
  function CountBelow(origin: seq<nat>, i: nat): (k: nat)
    ensures k <= |origin|
  {
    if origin == [] then 0
    else CountBelow(origin[..|origin| - 1], i) + (if origin[|origin| - 1] < i then 1 else 0)
  }

  lemma {:induction false} CountBelowAll(origin: seq<nat>, i: nat)
    requires forall c :: 0 <= c < |origin| ==> origin[c] < i
    ensures CountBelow(origin, i) == |origin|
  {
    if origin != [] {
      CountBelowAll(origin[..|origin| - 1], i);
    }
  }

  /** The filter chain of server.js:143-148 as a function of the parsed rows
      and the identities already loaded. */
  function Loading(valid: string -> bool): (load: (seq<Row>, seq<string>) -> seq<Row>)
    ensures forall parsed, loaded :: load(parsed, loaded) == LoadRows(parsed, loaded, valid)
  {
    (parsed, loaded) => LoadRows(parsed, loaded, valid)
  }

  /** The sources before `bound` were read in order, each against the
      batches loaded before it: batch `c` came from source `origin[c]`, at
      cursor 0, and holds exactly that source's rows filtered by `load`
      against the identities of batches `0 .. c - 1`; every source before
      `bound` that yielded no batch had no row left after filtering. */
  ghost predicate Traced(bs: seq<Batch>, origin: seq<nat>, sources: seq<Source>, parsed: seq<seq<Row>>,
                         load: (seq<Row>, seq<string>) -> seq<Row>, bound: nat)
  {
    bound <= |sources| && |parsed| == |sources| && |origin| == |bs| &&
    LoadedFrom(bs, origin, sources, parsed, load, bound) &&
    Increasing(origin) &&
    SkippedEmpty(bs, origin, parsed, load, bound)
  }

  ghost predicate LoadedFrom(bs: seq<Batch>, origin: seq<nat>, sources: seq<Source>, parsed: seq<seq<Row>>,
                             load: (seq<Row>, seq<string>) -> seq<Row>, bound: nat)
    requires |origin| == |bs| && bound <= |sources| == |parsed|
  {
    forall c :: 0 <= c < |bs| ==>
      origin[c] < bound && bs[c].path == sources[origin[c]].path && bs[c].cursor == 0 &&
      bs[c].rows == load(parsed[origin[c]], Identities(bs[..c])) && bs[c].rows != []
  }

  ghost predicate Increasing(origin: seq<nat>) {
    forall c, e :: 0 <= c < e < |origin| ==> origin[c] < origin[e]
  }

  ghost predicate SkippedEmpty(bs: seq<Batch>, origin: seq<nat>, parsed: seq<seq<Row>>,
                               load: (seq<Row>, seq<string>) -> seq<Row>, bound: nat)
    requires |origin| == |bs| && bound <= |parsed|
  {
    forall i :: 0 <= i < bound && i !in origin ==>
      load(parsed[i], Identities(bs[..CountBelow(origin, i)])) == []
  }

  /** Reading source `i` when rows of it survive the filters appends them as
      a batch. */
  lemma TracedAppend(bs: seq<Batch>, origin: seq<nat>, sources: seq<Source>, parsed: seq<seq<Row>>,
                     load: (seq<Row>, seq<string>) -> seq<Row>, i: nat)
    requires Traced(bs, origin, sources, parsed, load, i) && i < |sources|
    requires load(parsed[i], Identities(bs)) != []
    ensures Traced(bs + [Batch(sources[i].path, load(parsed[i], Identities(bs)), 0)],
                   origin + [i], sources, parsed, load, i + 1)
  {
    var nb := Batch(sources[i].path, load(parsed[i], Identities(bs)), 0);
    LoadedFromAppend(bs, origin, sources, parsed, load, i);
    SkippedEmptyAppend(bs, origin, parsed, load, i, nb);
  }

  lemma LoadedFromAppend(bs: seq<Batch>, origin: seq<nat>, sources: seq<Source>, parsed: seq<seq<Row>>,
                         load: (seq<Row>, seq<string>) -> seq<Row>, i: nat)
    requires |origin| == |bs| && i < |sources| == |parsed|
    requires LoadedFrom(bs, origin, sources, parsed, load, i)
    requires load(parsed[i], Identities(bs)) != []
    ensures LoadedFrom(bs + [Batch(sources[i].path, load(parsed[i], Identities(bs)), 0)],
                       origin + [i], sources, parsed, load, i + 1)
  {
    var bs' := bs + [Batch(sources[i].path, load(parsed[i], Identities(bs)), 0)];
    var origin' := origin + [i];
    forall c | 0 <= c < |bs'|
      ensures origin'[c] < i + 1 && bs'[c].path == sources[origin'[c]].path && bs'[c].cursor == 0 &&
              bs'[c].rows == load(parsed[origin'[c]], Identities(bs'[..c])) && bs'[c].rows != []
    {
      if c < |bs| {
        assert bs'[c] == bs[c] && bs'[..c] == bs[..c] && origin'[c] == origin[c];
      } else {
        assert bs'[..c] == bs;
      }
    }
  }

  lemma SkippedEmptyAppend(bs: seq<Batch>, origin: seq<nat>, parsed: seq<seq<Row>>,
                           load: (seq<Row>, seq<string>) -> seq<Row>, i: nat, nb: Batch)
    requires |origin| == |bs| && i < |parsed|
    requires SkippedEmpty(bs, origin, parsed, load, i)
    ensures SkippedEmpty(bs + [nb], origin + [i], parsed, load, i + 1)
  {
    var bs' := bs + [nb];
    var origin' := origin + [i];
    assert origin'[..|origin|] == origin;
    forall j | 0 <= j < i + 1 && j !in origin'
      ensures load(parsed[j], Identities(bs'[..CountBelow(origin', j)])) == []
    {
      var k := CountBelow(origin, j);
      assert CountBelow(origin', j) == k;
      assert bs'[..k] == bs[..k];
    }
  }

  /** Reading source `i` when none of its rows survives the filters adds
      no batch. */
  lemma TracedSkip(bs: seq<Batch>, origin: seq<nat>, sources: seq<Source>, parsed: seq<seq<Row>>,
                   load: (seq<Row>, seq<string>) -> seq<Row>, i: nat)
    requires Traced(bs, origin, sources, parsed, load, i) && i < |sources|
    requires load(parsed[i], Identities(bs)) == []
    ensures Traced(bs, origin, sources, parsed, load, i + 1)
  {
    CountBelowAll(origin, i);
    assert bs[..|bs|] == bs;
  }

  /** How startup ends: it throws on a missing template (server.js:134-138),
      exits when no CSV file yielded a batch (server.js:172-174), or starts
      the scheduler (server.js:170-171). */
  datatype Startup = Refused(message: string) | NothingLoaded | Running

  /** The startup sequence (server.js:133-175). `parsed[i]` stands for the
      rows read from the file of `sources[i]`. On refusal nothing is read and
      the dispatcher stays empty. `origin` maps each batch to the source it
      came from. */
  method Start(rate: nat, retryMax: nat, hours: seq<int>, template: string, sources: seq<Source>,
               parsed: seq<seq<Row>>, valid: string -> bool)
    returns (d: Dispatcher, status: Startup, ghost origin: seq<nat>)
    requires |parsed| == |sources|
    ensures fresh(d) && d.Valid()
    ensures d.rate == rate && d.retryMax == retryMax && d.hours == hours
    ensures d.csvIndex == 0 && d.mailCount == 0 && d.hourMailCount == 0
    ensures d.retryCount == 0 && d.calls == 0 && d.log == []
    ensures status.Refused? <==> TemplateCheck(template, sources).Refuse?
    ensures status.Refused? ==> status.message == MissingTemplate && d.batches == []
    ensures status.Running? <==> !status.Refused? && d.batches != []
    ensures !status.Refused? ==> Traced(d.batches, origin, sources, parsed, Loading(valid), |sources|)
  {
    d := new Dispatcher(rate, retryMax, hours);
    origin := [];
    var check := TemplateCheck(template, sources);
    if check.Refuse? {
      return d, Refused(check.message), origin;
    }
    origin := d.AddAll(sources, parsed, valid);
    status := if d.batches == [] then NothingLoaded else Running;
  }
}
