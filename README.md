# bulk-mail-client dispatcher, modelled in Dafny

bulk-mail-client sends one templated mail to each row of one or more CSV files.
It respects an hourly quota (`rate`) and a set of eligible hours. It retries
failed sends up to `retry_count` times, and after every terminal outcome it
writes the progress back into the CSV file. This project models the dispatch
engine of `server.js`:

- **startup** (lines 133-175): the template check, and the filter chain that
  turns each parsed CSV into a batch;
- **`sendMail`** (lines 30-94): one row's transport calls, retries,
  sent/fail marking, file rewrite and counters;
- **`run`** (lines 96-131): the scheduler tick, covering hour gating, draining
  up to the remaining quota, stopping, advancing to the next batch, and
  re-ticking or waiting for the next window.

Modules:

| file | module | contents |
|---|---|---|
| `seqs.dfy` | `Seqs` | `filter`, `findIndex`, subsequences, distinctness |
| `dedup.dfy` | `Dedup` | the `findIndex(...) === index` de-duplication filter for any identity function, and a one-pass reference scan for it |
| `identity.dfy` | `Identity` | `email.trim().toLowerCase()`: ECMAScript white space and line terminators, ASCII case mapping |
| `rows.dfy` | `Rows` | a CSV row: address, optional `bulkMailSent`/`fail` cells, other columns; JavaScript truthiness of a cell |
| `loader.dfy` | `Loader` | the four filters of lines 144-148 and what they guarantee together, the template check |
| `persist.dfy` | `Persist` | what the csv-writer rewrite leaves in the file |
| `retry.dfy` | `Retry` | the retry recursion of `sendMail` as a function of the transport's answers, and its fold over consecutive rows |
| `batches.dfy` | `Batches` | a batch (`{path, rows, cursor}`), the invariants of the batch list, counting lemmas |
| `dispatcher.dfy` | `Dispatch` | class `Dispatcher` holding the module state (`_csv`, `_csvIndex`, `_mailCount`, `_hourMailCount`, `_retryCount`), with `AddCsv`/`AddAll` (startup loop, one round per `AddSource`), `SendMail` (split into `Transmit` and `Settle`) and `Tick` (split into `Drain`, one round per `DrainStep`, and `Decide`); the startup method `Start` |

Outside inputs are modelled as follows:

- The transport is an oracle: `send(n)` says whether the n-th transport call
  succeeds, and the field `calls` counts the calls made.
- The hour of day is the argument of `Tick`.
- The e-mail validator is the predicate `valid`.
- The contents of each CSV file are given as parsed rows.
- Instead of arming a timer, `Tick` returns the next action: `Stop`,
  `ReTickNow`, `WaitInterval` or `WaitPoll`.
- Every rewrite of a batch file is appended to the ghost `log`. An entry holds
  the rows handed to `writeRecords` and the header the writer was created
  with: the keys of the row just processed (lines 48, 88). The file an entry
  leaves behind is `Batches.Written`, that is
  `Persist.WriteRecords(rows, Persist.RowHeader(row))`. `Persist.Persisted` is
  what a writer with a header listing every column of the batch would leave
  (see "## Findings").

The invariant `Dispatcher.Consistent` holds between operations. It says:

- the batches before `_csvIndex` are drained and those after it untouched;
- every batch is non-empty, its rows before the cursor are terminal, and none
  from the cursor on is marked sent;
- `_retryCount <= retry_count`;
- `_mailCount` equals the number of rows marked sent;
- no trimmed, lower-cased address occurs twice across all batches;
- the last rewrite of each started batch wrote its current rows.

`Valid` adds `_hourMailCount <= rate`.

Where the code does something other than what its behaviour evidently aims at, the model follows the code:

- `_retryCount` is global and is reset only when a row exhausts its retries
  (line 82), never after a success. A row delivered after some retries leaves
  the counter raised, and the next row then gets fewer attempts
  (`Retry.RetryCounterCarriesOver`). A per-row counter would be back at 0
  before the next row, giving every row the full `retry_count + 1` calls.
- The first filter drops only rows whose `bulkMailSent` is truthy (line 144).
  A row that an earlier run gave up on is therefore loaded again. If it is
  delivered this time, it carries both marks (`Loader.FailedRowsReload`),
  although a row would be expected to end with exactly one of the two marks.
- Each rewrite writes the in-memory rows of the batch (lines 49, 89): only the
  rows that survived the filters. The rows the loader dropped (already sent,
  duplicates, invalid addresses) disappear from the file at the first rewrite.
  The model's file is therefore the filtered rows.

## Model

| member | source | states |
|---|---|---|
| Seqs.Filter | server.js:144-148 | `filter` keeps exactly the elements that satisfy the predicate, in their order, each as many times as it occurs |
| Seqs.FilterKeepsAll | server.js:109 | comparing the length of `filter(p)` with the length of the array is the same as every element satisfying `p` |
| Seqs.FindIndex | server.js:145 | `findIndex` returns the first index holding the key, and -1 exactly when the key is absent |
| Identity.TrimStartShape | server.js:145 | `trimStart` removes exactly the longest prefix of white space and line terminators |
| Identity.TrimEndShape | server.js:145 | `trimEnd` removes exactly the longest suffix of white space and line terminators |
| Identity.Normalize | server.js:145-147 | an identity is never longer than the address and neither starts nor ends with white space |
| Identity.NormalizeIdempotent | server.js:145-147 | normalizing an identity again leaves it unchanged |
| Identity.NormalizeIgnoresPadding | server.js:145-147 | addresses that differ only by surrounding white space have the same identity |
| Identity.NormalizeIgnoresCase | server.js:145-147 | addresses with the same lower-case form have the same identity |
| Rows.Truthy | server.js:144 | JavaScript truthiness of a cell: a missing column (`undefined`) and `""` are falsy, every other string is truthy |
| Rows.TruthyCells | server.js:144 | a missing or empty `bulkMailSent` cell lets the row through the first filter, while `"0"`, `"false"` and the stored `1` all count as sent |
| Rows.MarkSent | server.js:44 | the row gets a truthy `bulkMailSent`; address, `fail` and other cells are kept |
| Rows.MarkFailed | server.js:83 | the row gets a truthy `fail`; address, `bulkMailSent` and other cells are kept |
| Dedup.ScanSound | server.js:144-146 | the reference scan keeps an order-preserving subsequence with pairwise different identities, none of them seen before |
| Dedup.IsFirstIffUnseen | server.js:145 | an element passes the `findIndex(...) === index` test exactly when its identity is not among those of the elements before it |
| Dedup.KeepFirstIsScan | server.js:144-146 | the index filter keeps exactly what the one-pass scan keeps |
| Dedup.KeepFirstMembers | server.js:144-146 | an element survives de-duplication exactly when it is the first element with its identity |
| Dedup.SubseqKeepsDistinct | server.js:146-148 | the filters after de-duplication, which only delete rows, cannot make two identities collide |
| Loader.DropSent | server.js:144 | the first filter: rows whose `bulkMailSent` is falsy (no contract of its own; see `Loader.LoadRowsMembers`) |
| Loader.KeepFirstRows | server.js:144-146 | the `findIndex(...) === index` filter on the normalized address (no contract of its own; see `Dedup.KeepFirstIsScan` and `Dedup.KeepFirstMembers`) |
| Loader.DropLoaded | server.js:146-147 | rows whose identity is not among those of the batches loaded before (no contract of its own; see `Loader.LoadRowsMembers`) |
| Loader.DropInvalid | server.js:148 | rows whose address the validator accepts (no contract of its own; see `Loader.LoadRowsMembers`) |
| Loader.LoadRows | server.js:143-148 | the four filters in the source's order (no contract of its own; `Loader.LoadRowsSound` and `Loader.LoadRowsMembers` state what it keeps) |
| Loader.LoadRowsSound | server.js:144-148 | a loaded batch is an order-preserving subsequence of the parsed rows: none marked sent, every address valid, no identity of an earlier batch, no identity twice |
| Loader.LoadRowsMembers | server.js:144-148 | a row is loaded exactly when it is parsed, unsent, the first unsent row with its identity, new to earlier batches and valid |
| Loader.LoadRowsFresh | server.js:143-147 | appending a loaded batch keeps identities unique across all batches |
| Loader.FailedRowsReload | server.js:144 | a row marked failed but not sent is loaded again, and delivering it gives it both marks |
| Loader.TemplateCheck | server.js:134-138 | startup refuses, with the source's message, exactly when there is no global template and some CSV has no template of its own |
| Persist.RowHeader | server.js:46-49 | the header csv-writer is created with (here and at line 88) lists exactly the optional columns the row just processed has, so that row is written back unchanged |
| Persist.WriteRecords | server.js:46-49 | every row keeps its address and other cells; a column the header omits is absent from every row, a listed one keeps each row's truthiness |
| Persist.BatchHeader | server.js:46-49 | the corrected header lists a mark column exactly when some row of the batch has that cell |
| Persist.RowHeaderForgetsDeliveries | server.js:46-49 | with the header taken from a row without a `bulkMailSent` key, no rewritten row is marked sent and every one passes the first filter again |
| Persist.PersistedKeepsMarks | server.js:86-89 | the corrected rewrite keeps every row's address, other columns and the truthiness of both marks |
| Persist.PersistIdempotent | server.js:86-89 | rewriting a file from its own contents leaves it unchanged |
| Persist.ReloadSkipsDelivered | server.js:144 | after the corrected rewrite, no delivered row is loaded again |
| Retry.SendWithRetries | server.js:68-92 | at most `retry_count - _retryCount + 1` calls are made, all but the last fail; success leaves the counter raised by the number of retries, exhaustion follows exactly the allowed number of calls |
| Retry.DeliveredIffSomeCallSucceeds | server.js:68-92 | a row is delivered exactly when one of the calls it may make succeeds |
| Retry.RetryCounterCarriesOver | server.js:71-82 | a success after two failures leaves the counter at 2, so the next always-failing row is given up after two calls instead of four |
| Retry.SendRows | server.js:103-108 | `n` rows sent one after another, each starting from the call number and retry counter the previous one left: one outcome per row, at least one and at most `retry_count + 1` calls per row |
| Retry.Deliveries | server.js:51-52 | the number of delivered rows is at most the number of rows, and equals it exactly when every row was delivered |
| Retry.TransportUpDeliversAll | server.js:103-108 | while the transport accepts every call, each row is delivered on its first call and the retry counter does not move |
| Retry.TransportDownFailsAll | server.js:71-84 | while the transport refuses every call, the first row spends the remaining retries, every later row makes `retry_count + 1` calls, all are given up and the counter ends at 0 |
| Batches.AllDrainedIff | server.js:109 | the stop test holds exactly when every batch's cursor equals its row count |
| Batches.CountSentNone | server.js:144 | a batch freshly loaded counts no sent rows |
| Batches.CountSentUpdate | server.js:44 | replacing one row changes a batch's sent count by the change of that row's mark |
| Batches.SentTotalUpdate | server.js:52 | replacing one batch changes the total sent count by the change of that batch's count |
| Batches.Identities | server.js:143 | the identities of the rows of all batches loaded so far, batch after batch (`_csv.map(c => c.rows).flat()`, compared by trimmed, lower-cased address) |
| Batches.IdentitiesMembers | server.js:143 | an identity is in that list exactly when some row of some loaded batch has it |
| Batches.IdentitiesUpdate | server.js:143 | marking rows without changing addresses keeps the identities of all batches |
| Batches.Settled | server.js:82-84 | together with line 44: a settled row keeps its address and is terminal; it is marked sent exactly when it was delivered (or already was) |
| Batches.Advance | server.js:44-50 | the row at the cursor is replaced, nothing else in the batch changes, and the cursor moves by one |
| Batches.ScheduledAdvance | server.js:44-50 | settling the row at the cursor as delivered or failed and advancing keeps the batch list consistent and processes exactly that row with that outcome |
| Batches.SentTotalAdvance | server.js:44-52 | marking the row at the cursor changes the total sent count by that row's new mark |
| Batches.IdentitiesAdvance | server.js:44-50 | marking the row at the cursor keeps all identities |
| Batches.ExhaustedRewriteForgets | server.js:82-89 | the rewrite after an exhausted row, with that row's keys as header, leaves a file with no sent mark when the file has no `bulkMailSent` column |
| Batches.RecordedAdvance | server.js:46-49 | after the rewrite of the current batch, every started batch's last rewrite wrote its current rows |
| Batches.RewritesStep | server.js:46-89 | settling one more row and logging the rewrite of its batch, with that row's keys as header, extends the per-row rewrite record by that entry |
| Batches.ProcessedStep | server.js:105-108 | processing rows with outcomes `ds` and then one more with outcome `d` is processing rows with outcomes `ds + [d]`, in order from the cursor |
| Batches.ScheduledNext | server.js:113-117 | when the current batch is drained and some batch is not, a next batch exists and moving to it keeps the list consistent |
| Dispatch.Transmit | server.js:68-92 | the retry loop returns exactly the outcome the retry recursion defines, with the counter within `retry_count` |
| Dispatch.Dispatcher.constructor | server.js:19-24 | the module state starts empty with all counters at 0 |
| Dispatch.AppendLoaded | server.js:153-167 | appending a freshly loaded batch keeps the batch list consistent, identities unique across batches, and the sent count unchanged |
| Dispatch.AppendFresh | server.js:149-167 | appending a non-empty batch at cursor 0 whose rows are unsent and whose identities are new keeps the list consistent, identities distinct, rewrites recorded and the sent total unchanged |
| Dispatch.Dispatcher.AddCsv | server.js:141-168 | one file's filtered rows are appended as a batch at cursor 0 exactly when non-empty; the invariant is kept |
| Dispatch.Dispatcher.AddAll | server.js:141-169 | after the loop over all sources, each batch comes from one source, in source order, at cursor 0, and holds exactly that source's rows filtered against the batches before it; every source that yielded no batch had no row left after filtering; the invariant is kept |
| Dispatch.Dispatcher.AddSource | server.js:141-168 | reading one more source keeps that description true for one more source, and the invariant |
| Dispatch.TracedAppend | server.js:149-167 | a source with rows left after filtering becomes the next batch, and the description extends to it |
| Dispatch.TracedSkip | server.js:149-152 | a source with no row left after filtering is skipped, and the description extends to it |
| Dispatch.Dispatcher.Settle | server.js:44-52 | on delivery the row at the cursor is marked sent and both counts grow by one; on exhaustion (lines 82-89) it is marked failed and the retry counter is reset; either way the cursor moves by one and the file is rewritten once with the batch's rows, under the keys of the settled row as header |
| Dispatch.Dispatcher.SendMail | server.js:30-94 | the row at the cursor ends marked sent (delivered) or failed (retries exhausted); the cursor moves by one; both counts grow by one only on delivery; the retry counter is kept on delivery and reset on exhaustion; the file is rewritten once; the invariant is kept |
| Dispatch.Dispatcher.Drain | server.js:103-108 | exactly `min(rows left, rate - _hourMailCount)` rows of the current batch are processed, in order from the cursor; after the j-th one the log gains exactly one rewrite, of the batch's rows as they stand then (rows settled so far, the rest untouched), with the keys of that row as header; the j-th row is marked sent exactly when the j-th outcome of `Retry.SendRows` from the old call number and retry counter is a delivery, and the call number and retry counter end where `SendRows` leaves them; both counts grow by the number of deliveries, and `_hourMailCount` stays within `rate` |
| Dispatch.Dispatcher.DrainStep | server.js:105-107 | one more round of the loop extends that statement, rewrite included, by one row |
| Dispatch.Dispatcher.Decide | server.js:109-125 | `Stop` exactly when every batch is drained; otherwise `_csvIndex` moves by one exactly when the current batch is drained, then `ReTickNow` when `_hourMailCount < rate`, else the count is reset and `WaitInterval` |
| Dispatch.Dispatcher.Tick | server.js:96-131 | outside the eligible hours nothing changes and the action is `WaitPoll`; otherwise exactly `min(rows left, rate - _hourMailCount)` rows of the current batch are processed in order, each marked sent exactly when `Retry.SendRows` says it was delivered, with the call number, retry counter and `_mailCount` following from the same outcomes, and one rewrite logged after each row with that row's keys as header; `Stop` exactly when all batches are drained; otherwise `_csvIndex` moves by one exactly when the current batch is drained; `ReTickNow` when quota is left, else the hourly count is reset and `WaitInterval`; `_hourMailCount <= rate` is kept |
| Dispatch.Start | server.js:133-175 | refuses exactly when the template check does, leaving no batch; otherwise the batches are exactly the non-empty filter results of the sources, in source order, each filtered against the batches before it; the scheduler runs exactly when some batch was loaded |

## Left out

- Mail rendering and transport (`email-templates`, `nodemailer`, attachments, locals, preview URLs): the transport is the oracle `send`, and a batch keeps only its path, rows and cursor.
- Reading and parsing the CSV files (`fs.readFile`, `async-csv`): each file arrives as its parsed rows. A file without an `email` column (where `row.email.trim()` would throw) is not modelled: every row has an address.
- Writer errors: the csv-writer rewrite is modelled as always succeeding. In the source, a write error inside the `try` would be caught and would retry the send.
- `emailValidator.validate` is the predicate `valid`.
- Timers and the clock: the pauses (`pause_timeout`, `retry_timeout`), the 5-minute poll and `interval` become the returned `Action`. `new Date().getHours()` becomes the `hour` argument.
- Console and log output, including the progress figures of lines 56-63.
- `toLowerCase` maps only ASCII letters; full Unicode case mapping is not modelled.
- Rows live as values in a sequence inside the dispatcher. JavaScript's sharing of the row objects between `_csv` and the writer is not modelled.

## Findings

| source | as written | input that shows it | evidently intended | confidence | as-written member | corrected member |
|---|---|---|---|---|---|---|
| server.js:46-49, 86-89 | the csv-writer header is the keys of the row just processed; the dispatcher's log records that header (`Batches.ExhaustedRewriteForgets` applies it to the entry an exhausted row writes) | a CSV without a `bulkMailSent` column: one row is delivered, then the next row exhausts its retries; the header then lacks `bulkMailSent`, the file loses the delivered mark, and the next start sends that row again | the header lists every column any row of the batch has, so marks survive every rewrite | not executed | Persist.RowHeaderForgetsDeliveries | Persist.ReloadSkipsDelivered |
