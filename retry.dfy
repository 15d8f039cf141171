/** What the retry recursion of `sendMail` (server.js:68-92) does with one row,
    as a function of the transport's answers. The transport is the oracle
    `send`: `send(n)` tells whether the n-th transport call of the run
    succeeds. */
module Retry {

  /** `Delivered` carries the global retry counter as the success leaves it
      (server.js never resets it there); `Exhausted` leaves it at 0. `next` is
      the number of the first transport call after this row. */
  datatype Outcome = Delivered(retryCount: nat, next: nat) | Exhausted(next: nat)

  /** Calls the transport starting with call `attempt`: on success the row is
      delivered; on failure it is retried while `retryCount < retryMax`, each
      retry incrementing the counter (server.js:71-79); otherwise the row is
      given up (server.js:81-84). */
  function SendWithRetries(send: nat -> bool, attempt: nat, retryCount: nat, retryMax: nat): (o: Outcome)
    requires retryCount <= retryMax
    ensures attempt < o.next <= attempt + (retryMax - retryCount) + 1
    ensures forall j :: attempt <= j < o.next - 1 ==> !send(j)
    ensures o.Delivered? ==> send(o.next - 1) && o.retryCount == retryCount + (o.next - 1 - attempt) <= retryMax
    ensures o.Exhausted? ==> !send(o.next - 1) && o.next == attempt + (retryMax - retryCount) + 1
    decreases retryMax - retryCount
  {
    if send(attempt) then Delivered(retryCount, attempt + 1)
    else if retryCount < retryMax then SendWithRetries(send, attempt + 1, retryCount + 1, retryMax)
    else Exhausted(attempt + 1)
  }

  /** A row is delivered exactly when one of the `retryMax - retryCount + 1`
      calls it may make succeeds. */
  lemma DeliveredIffSomeCallSucceeds(send: nat -> bool, attempt: nat, retryCount: nat, retryMax: nat)
    requires retryCount <= retryMax
    ensures SendWithRetries(send, attempt, retryCount, retryMax).Delivered? <==>
              exists j :: attempt <= j <= attempt + (retryMax - retryCount) && send(j)
  {
    var o := SendWithRetries(send, attempt, retryCount, retryMax);
    if o.Delivered? {
      assert send(o.next - 1);
    }
  }

  function FailTwiceThenSucceed(n: nat): bool { n == 2 }

  function AlwaysFail(n: nat): bool { false }

  /** The counter is global: with three retries allowed, a row delivered on
      its third call leaves it at 2, so a following row that keeps failing is
      given up after two calls instead of four. */
  lemma RetryCounterCarriesOver()
    ensures SendWithRetries(FailTwiceThenSucceed, 0, 0, 3) == Delivered(2, 3)
    ensures SendWithRetries(AlwaysFail, 3, 2, 3) == Exhausted(5)
    ensures SendWithRetries(AlwaysFail, 3, 0, 3) == Exhausted(7)
  {
  }

  // ---------------------------------------------------------------------------
  // Several rows in a row, as the loop of `run` sends them (server.js:103-108)

  /** The result of sending `n` rows one after another: whether each row was
      delivered, the number of the next transport call, and the global retry
      counter as the last row leaves it. */
  datatype Run = Run(delivered: seq<bool>, next: nat, retryCount: nat)

  /** Sends `n` rows in order, starting with transport call `attempt` and the
      counter at `retryCount`. Each row starts where the previous one left
      both: the counter stays raised after a delivery and is back at 0 after
      an exhaustion (server.js:82). */
  function SendRows(send: nat -> bool, attempt: nat, retryCount: nat, retryMax: nat, n: nat): (r: Run)
    requires retryCount <= retryMax
    ensures |r.delivered| == n && r.retryCount <= retryMax
    ensures attempt + n <= r.next <= attempt + n * (retryMax + 1)
  {
    if n == 0 then Run([], attempt, retryCount)
    else
      var p := SendRows(send, attempt, retryCount, retryMax, n - 1);
      var o := SendWithRetries(send, p.next, p.retryCount, retryMax);
      assert (n - 1) * (retryMax + 1) + (retryMax + 1) == n * (retryMax + 1);
      Run(p.delivered + [o.Delivered?], o.next, if o.Delivered? then o.retryCount else 0)
  }

  /** The number of rows delivered. */
  function Deliveries(delivered: seq<bool>): (k: nat)
    ensures k <= |delivered|
    ensures k == |delivered| <==> forall j :: 0 <= j < |delivered| ==> delivered[j]
  {
    if delivered == [] then 0
    else
      var init := delivered[..|delivered| - 1];
      assert forall j :: 0 <= j < |init| ==> init[j] == delivered[j];
      Deliveries(init) + (if delivered[|delivered| - 1] then 1 else 0)
  }

  /** One more row starts with the call number and counter the previous rows
      left behind. */
  lemma SendRowsStep(send: nat -> bool, attempt: nat, retryCount: nat, retryMax: nat, n: nat, r: Run)
    requires retryCount <= retryMax && SendRows(send, attempt, retryCount, retryMax, n) == r
    ensures var o := SendWithRetries(send, r.next, r.retryCount, retryMax);
            SendRows(send, attempt, retryCount, retryMax, n + 1) ==
              Run(r.delivered + [o.Delivered?], o.next, if o.Delivered? then o.retryCount else 0)
  {
  }

  lemma DeliveriesAppend(delivered: seq<bool>, d: bool)
    ensures Deliveries(delivered + [d]) == Deliveries(delivered) + (if d then 1 else 0)
  {
    assert (delivered + [d])[..|delivered|] == delivered;
  }

  /** While the transport accepts every call, each row is delivered on its
      first call and the counter never moves. */
  lemma {:induction false} TransportUpDeliversAll(send: nat -> bool, attempt: nat, retryCount: nat, retryMax: nat, n: nat)
    requires retryCount <= retryMax
    requires forall j :: attempt <= j < attempt + n ==> send(j)
    ensures SendRows(send, attempt, retryCount, retryMax, n) == Run(seq(n, _ => true), attempt + n, retryCount)
  {
    if n > 0 {
      TransportUpDeliversAll(send, attempt, retryCount, retryMax, n - 1);
      assert seq(n - 1, _ => true) + [true] == seq(n, _ => true);
    }
  }

  /** While the transport refuses every call, the first row spends the
      remaining retries and every later row gets a single call: each row is
      given up and the counter ends at 0. */
  lemma {:induction false} TransportDownFailsAll(send: nat -> bool, attempt: nat, retryCount: nat, retryMax: nat, n: nat)
    requires retryCount <= retryMax && n > 0
    requires forall j :: j >= attempt ==> !send(j)
    ensures SendRows(send, attempt, retryCount, retryMax, n) ==
              Run(seq(n, _ => false), attempt + (retryMax - retryCount + 1) + (n - 1) * (retryMax + 1), 0)
  {
    if n > 1 {
      TransportDownFailsAll(send, attempt, retryCount, retryMax, n - 1);
      assert seq(n - 1, _ => false) + [false] == seq(n, _ => false);
      assert (n - 2) * (retryMax + 1) + (retryMax + 1) == (n - 1) * (retryMax + 1);
    } else {
      assert SendRows(send, attempt, retryCount, retryMax, 0) == Run([], attempt, retryCount);
    }
  }
}
