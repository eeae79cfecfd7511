/**
 * One pass of the two outbox relays (services/ledger/ledger_relay.py, services/gateway/relay.py):
 * publish the selected rows one by one, then commit the rows that were published.
 */
module OutboxRelay {
  import opened Common

  const LEDGER_BATCH := 10
  const GATEWAY_BATCH := 50

  // ---------------------------------------------------------------------------------------------
  // Rows and batches
  // ---------------------------------------------------------------------------------------------

  function PendingCount<T>(rows: seq<OutboxRow<T>>): nat {
    if rows == [] then 0
    else PendingCount(rows[..|rows| - 1]) + if rows[|rows| - 1].status.Unsent? then 1 else 0
  }

  predicate Distinct(batch: seq<nat>) {
    forall i, j :: 0 <= i < j < |batch| ==> batch[i] != batch[j]
  }

  predicate PendingRows<T>(rows: seq<OutboxRow<T>>, batch: seq<nat>) {
    forall i :: 0 <= i < |batch| ==> batch[i] < |rows| && rows[batch[i]].status.Unsent?
  }

  /**
   * `SELECT ... WHERE status = PENDING LIMIT n FOR UPDATE SKIP LOCKED`, in no particular order; rows that
   * another instance holds may be missing.
   */
  predicate Selectable<T>(rows: seq<OutboxRow<T>>, batch: seq<nat>, limit: nat) {
    Distinct(batch) && PendingRows(rows, batch) && |batch| <= limit
  }

  /** The same while no other instance holds rows. */
  ghost predicate Selected<T>(rows: seq<OutboxRow<T>>, batch: seq<nat>, limit: nat) {
    && Selectable(rows, batch, limit)
    && |batch| == if PendingCount(rows) <= limit then PendingCount(rows) else limit
  }

  /** `rows` with exactly the rows of `done` set to PROCESSED. */
  function MarkProcessed<T>(rows: seq<OutboxRow<T>>, done: set<nat>): seq<OutboxRow<T>> {
    seq(|rows|, i requires 0 <= i < |rows| => if i in done then rows[i].(status := Processed) else rows[i])
  }

  function Mark<T>(rows: seq<OutboxRow<T>>, batch: seq<nat>): seq<OutboxRow<T>>
    requires forall i :: 0 <= i < |batch| ==> batch[i] < |rows|
  {
    MarkProcessed(rows, set row | row in batch)
  }

  function Events<T>(rows: seq<OutboxRow<T>>, batch: seq<nat>): seq<T>
    requires forall i :: 0 <= i < |batch| ==> batch[i] < |rows|
  {
    seq(|batch|, i requires 0 <= i < |batch| => rows[batch[i]].event)
  }

  lemma {:induction false} CountSet<T>(rows: seq<OutboxRow<T>>, i: nat, row: OutboxRow<T>)
    requires i < |rows|
    ensures PendingCount(rows[i := row]) == PendingCount(rows)
              - (if rows[i].status.Unsent? then 1 else 0) + (if row.status.Unsent? then 1 else 0)
  {
    var last := |rows| - 1;
    if i < last {
      assert rows[i := row][..last] == rows[..last][i := row];
      CountSet(rows[..last], i, row);
    } else {
      assert rows[i := row][..last] == rows[..last];
    }
  }

  /** Marking a batch lowers the pending count by its length. */
  lemma {:induction false} MarkCounts<T>(rows: seq<OutboxRow<T>>, batch: seq<nat>)
    requires Distinct(batch) && PendingRows(rows, batch)
    ensures PendingCount(Mark(rows, batch)) == PendingCount(rows) - |batch|
  {
    if batch == [] {
      assert Mark(rows, batch) == rows;
    } else {
      var init, last := batch[..|batch| - 1], batch[|batch| - 1];
      MarkCounts(rows, init);
      CountSet(Mark(rows, init), last, rows[last].(status := Processed));
      MarkNext(rows, init, last);
      assert init + [last] == batch;
      assert last !in init;
    }
  }

  lemma MarkNext<T>(rows: seq<OutboxRow<T>>, init: seq<nat>, last: nat)
    requires PendingRows(rows, init) && last < |rows|
    ensures Mark(rows, init + [last]) == Mark(rows, init)[last := rows[last].(status := Processed)]
  {
  }

  // ---------------------------------------------------------------------------------------------
  // One pass
  // ---------------------------------------------------------------------------------------------

  /**
   * What happens to one row of the batch. `delivered` tells whether the broker got the message
   * although the send failed.
   */
  datatype SendOutcome =
    | Sent
    | KafkaFailure(delivered: bool)
    | OtherFailure(delivered: bool)

  /** The number of rows of the batch before the first failure. */
  function Successes(outcomes: seq<SendOutcome>): nat {
    if outcomes == [] || outcomes[0] != Sent then 0 else 1 + Successes(outcomes[1..])
  }

  lemma {:induction false} SuccessesBound(outcomes: seq<SendOutcome>)
    ensures Successes(outcomes) <= |outcomes|
    ensures forall i :: 0 <= i < Successes(outcomes) ==> outcomes[i] == Sent
    ensures Successes(outcomes) < |outcomes| ==> outcomes[Successes(outcomes)] != Sent
  {
    if outcomes != [] && outcomes[0] == Sent {
      SuccessesBound(outcomes[1..]);
      forall i | 0 <= i < Successes(outcomes) ensures outcomes[i] == Sent {
        if i > 0 {
          assert outcomes[i] == outcomes[1..][i - 1];
        }
      }
    }
  }

  /** What the broker has after the pass: the rows before the failure, and the failed one if it got through. */
  function Published<T>(rows: seq<OutboxRow<T>>, batch: seq<nat>, outcomes: seq<SendOutcome>): seq<T>
    requires |outcomes| == |batch| && forall i :: 0 <= i < |batch| ==> batch[i] < |rows|
  {
    SuccessesBound(outcomes);
    var n := Successes(outcomes);
    Events(rows, if n < |batch| && outcomes[n].delivered then batch[..n + 1] else batch[..n])
  }

  /** `n` is the index of the first failure, or the length of the batch. */
  predicate FirstFailure(outcomes: seq<SendOutcome>, n: nat) {
    && n <= |outcomes|
    && (forall i :: 0 <= i < n ==> outcomes[i] == Sent)
    && (n < |outcomes| ==> outcomes[n] != Sent)
  }

  /**
   * What reached the broker, message by message: the events of the first `n` rows of the batch in order,
   * then the event of row `n` if its send failed although it was delivered, and nothing else.
   */
  predicate SentExactly<T(==)>(
    rows: seq<OutboxRow<T>>, batch: seq<nat>, outcomes: seq<SendOutcome>, before: seq<T>, after: seq<T>, n: nat)
    requires n <= |batch| == |outcomes| && (forall i :: 0 <= i < |batch| ==> batch[i] < |rows|)
  {
    var late := n < |batch| && (outcomes[n] == KafkaFailure(true) || outcomes[n] == OtherFailure(true));
    && |after| == |before| + n + (if late then 1 else 0)
    && after[..|before|] == before
    && (forall i :: 0 <= i < n ==> after[|before| + i] == rows[batch[i]].event)
    && (late ==> after[|before| + n] == rows[batch[n]].event)
  }

  /** The first `n` rows of the batch are PROCESSED; no other row and no event changed. */
  predicate MarkedExactly<T(==)>(before: seq<OutboxRow<T>>, after: seq<OutboxRow<T>>, batch: seq<nat>, n: nat)
    requires n <= |batch|
  {
    && |after| == |before|
    && (forall r :: 0 <= r < |before| ==> after[r].event == before[r].event)
    && (forall r: nat :: r < |before| ==>
          after[r].status == if exists i :: 0 <= i < n && batch[i] == r then Processed else before[r].status)
  }

  /** Every row that became PROCESSED has its event among the new messages. */
  predicate MarkedAreSent<T(==)>(
    before: seq<OutboxRow<T>>, after: seq<OutboxRow<T>>, sentBefore: seq<T>, sentAfter: seq<T>)
  {
    forall r :: 0 <= r < |before| && r < |after| && before[r].status == Unsent && after[r].status == Processed ==>
      exists j :: |sentBefore| <= j < |sentAfter| && sentAfter[j] == before[r].event
  }

  lemma PublishedIsEvents<T>(rows: seq<OutboxRow<T>>, batch: seq<nat>, outcomes: seq<SendOutcome>)
    requires |outcomes| == |batch| && (forall i :: 0 <= i < |batch| ==> batch[i] < |rows|)
    ensures var n := Successes(outcomes);
            && n <= |batch|
            && Published(rows, batch, outcomes)
               == Events(rows, if n < |batch| && outcomes[n] != Sent && outcomes[n].delivered then batch[..n + 1]
                               else batch[..n])
  {
    SuccessesBound(outcomes);
  }

  lemma NothingYet<T>(rows: seq<OutboxRow<T>>, batch: seq<nat>)
    requires forall i :: 0 <= i < |batch| ==> batch[i] < |rows|
    ensures Mark(rows, batch[..0]) == rows && Events(rows, batch[..0]) == []
  {
  }

  lemma PublishedExactly<T>(
    rows: seq<OutboxRow<T>>, batch: seq<nat>, outcomes: seq<SendOutcome>, before: seq<T>, n: nat)
    requires |outcomes| == |batch| && (forall i :: 0 <= i < |batch| ==> batch[i] < |rows|)
    requires n == Successes(outcomes)
    ensures FirstFailure(outcomes, n)
    ensures SentExactly(rows, batch, outcomes, before, before + Published(rows, batch, outcomes), n)
  {
    SuccessesBound(outcomes);
  }

  lemma MarkExactly<T>(rows: seq<OutboxRow<T>>, batch: seq<nat>, n: nat)
    requires n <= |batch| && (forall i :: 0 <= i < |batch| ==> batch[i] < |rows|)
    ensures MarkedExactly(rows, Mark(rows, batch[..n]), batch, n)
  {
    forall r: nat | r < |rows| ensures r in batch[..n] <==> exists i :: 0 <= i < n && batch[i] == r {
    }
  }

  lemma SentCoversMarked<T>(
    rows: seq<OutboxRow<T>>, rows': seq<OutboxRow<T>>, batch: seq<nat>, outcomes: seq<SendOutcome>,
    before: seq<T>, after: seq<T>, n: nat)
    requires n <= |batch| == |outcomes| && (forall i :: 0 <= i < |batch| ==> batch[i] < |rows|)
    requires SentExactly(rows, batch, outcomes, before, after, n) && MarkedExactly(rows, rows', batch, n)
    ensures MarkedAreSent(rows, rows', before, after)
  {
    forall r | 0 <= r < |rows| && rows[r].status == Unsent && rows'[r].status == Processed
      ensures exists j :: |before| <= j < |after| && after[j] == rows[r].event
    {
      var i :| 0 <= i < n && batch[i] == r;
      assert after[|before| + i] == rows[r].event;
    }
  }

  datatype PassResult = Nothing | AllSent | Stopped | Raised

  class Outbox<T> {
    var rows: seq<OutboxRow<T>>
    var published: seq<T>

    constructor (rows: seq<OutboxRow<T>>)
      ensures this.rows == rows && published == []
    {
      this.rows, published := rows, [];
    }

    /**
     * The send loop both relays share: publish row after row and set its status in the session,
     * until the batch ends or a send fails. `marked` is the session's view of the table.
     */
    method PublishUntilFailure(batch: seq<nat>, outcomes: seq<SendOutcome>)
      returns (messagesProcessed: nat, marked: seq<OutboxRow<T>>)
      requires PendingRows(rows, batch) && |outcomes| == |batch|
      modifies this`published
      ensures messagesProcessed == Successes(outcomes) <= |batch|
      ensures published == old(published) + Published(rows, batch, outcomes)
      ensures marked == Mark(rows, batch[..messagesProcessed])
      ensures FirstFailure(outcomes, messagesProcessed)
      ensures SentExactly(rows, batch, outcomes, old(published), published, messagesProcessed)
      ensures MarkedExactly(rows, marked, batch, messagesProcessed)
    {
      hide SentExactly, MarkedExactly, FirstFailure, Published, Events, Mark, Successes;
      SuccessesBound(outcomes);
      NothingYet(rows, batch);
      PublishedIsEvents(rows, batch, outcomes);
      PublishedExactly(rows, batch, outcomes, published, Successes(outcomes));
      MarkExactly(rows, batch, Successes(outcomes));
      messagesProcessed, marked := 0, rows;
      while messagesProcessed < |batch| && outcomes[messagesProcessed] == Sent
        invariant messagesProcessed <= |batch|
        invariant messagesProcessed <= Successes(outcomes)
        invariant marked == Mark(rows, batch[..messagesProcessed])
        invariant published == old(published) + Events(rows, batch[..messagesProcessed])
      {
        var row := batch[messagesProcessed];
        EventsNext(rows, batch, messagesProcessed);
        MarkPrefixNext(rows, batch, messagesProcessed);
        published := published + [rows[row].event];
        marked := marked[row := rows[row].(status := Processed)];
        messagesProcessed := messagesProcessed + 1;
      }
      if messagesProcessed < |batch| && outcomes[messagesProcessed].delivered {
        EventsNext(rows, batch, messagesProcessed);
        published := published + [rows[batch[messagesProcessed]].event];
      }
    }

    /**
     * The ledger relay: a KafkaError stops the batch and the rows before it are committed; any other
     * exception leaves the session without a commit, so nothing is marked.
     */
    method LedgerPass(batch: seq<nat>, outcomes: seq<SendOutcome>) returns (result: PassResult)
      requires Selectable(rows, batch, LEDGER_BATCH) && |outcomes| == |batch|
      modifies this
      ensures exists n: nat :: FirstFailure(outcomes, n) && LedgerPassed(old(rows), rows, batch, outcomes, n, result)
                               && SentExactly(old(rows), batch, outcomes, old(published), published, n)
      ensures MarkedAreSent(old(rows), rows, old(published), published)
      ensures Selected(old(rows), batch, 10) && (result == AllSent || result == Nothing) ==>
                CleanPass(old(rows), rows, 10)
    {
      hide SentExactly, MarkedExactly, Published, MarkedAreSent, MarkProcessed;
      var n, marked := PublishUntilFailure(batch, outcomes);
      if n < |batch| && outcomes[n].OtherFailure? {
        NothingMarked(rows, old(published), published);
        assert LedgerPassed(old(rows), rows, batch, outcomes, n, Raised);
        return Raised;
      }
      MarkCounts(rows, batch[..n]);
      SentCoversMarked(rows, marked, batch, outcomes, old(published), published, n);
      rows := marked;
      assert n == |batch| ==> batch[..n] == batch;
      result := if batch == [] then Nothing else if n < |batch| then Stopped else AllSent;
      assert LedgerPassed(old(rows), rows, batch, outcomes, n, result);
    }

    /**
     * The gateway relay: any exception stops the batch and the rows before it are committed. A row
     * without `from_account_id` fails before it is sent.
     */
    method GatewayPass(batch: seq<nat>, outcomes: seq<SendOutcome>, keyed: T -> bool) returns (result: PassResult)
      requires Selectable(rows, batch, GATEWAY_BATCH) && |outcomes| == |batch|
      requires forall i :: 0 <= i < |batch| && !keyed(rows[batch[i]].event) ==> outcomes[i] == OtherFailure(false)
      modifies this
      ensures exists n: nat :: FirstFailure(outcomes, n) && GatewayPassed(old(rows), rows, batch, n, result)
                               && SentExactly(old(rows), batch, outcomes, old(published), published, n)
      ensures MarkedAreSent(old(rows), rows, old(published), published)
      ensures forall r :: 0 <= r < |old(rows)| && !keyed(old(rows)[r].event) ==> rows[r] == old(rows)[r]
      ensures Selected(old(rows), batch, 50) && (result == AllSent || result == Nothing) ==>
                CleanPass(old(rows), rows, 50)
    {
      hide SentExactly, Published, MarkedAreSent, MarkProcessed;
      var n, marked := PublishUntilFailure(batch, outcomes);
      MarkCounts(rows, batch[..n]);
      SentCoversMarked(rows, marked, batch, outcomes, old(published), published, n);
      rows := marked;
      assert n == |batch| ==> batch[..n] == batch;
      result := if batch == [] then Nothing else if n < |batch| then Stopped else AllSent;
      assert GatewayPassed(old(rows), rows, batch, n, result);
    }
  }

  /** A ledger pass: a KafkaError at `n` commits the first `n` rows, any other exception none. */
  predicate LedgerPassed<T(==)>(
    before: seq<OutboxRow<T>>, after: seq<OutboxRow<T>>, batch: seq<nat>, outcomes: seq<SendOutcome>, n: nat,
    result: PassResult)
  {
    && n <= |batch| == |outcomes|
    && (result == Nothing <==> batch == [])
    && (result == AllSent <==> batch != [] && n == |batch|)
    && (result == Raised <==> n < |batch| && outcomes[n].OtherFailure?)
    && (result == Stopped <==> n < |batch| && outcomes[n].KafkaFailure?)
    && (result == Raised ==> after == before)
    && (result != Raised ==>
          MarkedExactly(before, after, batch, n) && PendingCount(after) == PendingCount(before) - n)
  }

  /** A gateway pass: any exception at `n` commits the first `n` rows. */
  predicate GatewayPassed<T(==)>(
    before: seq<OutboxRow<T>>, after: seq<OutboxRow<T>>, batch: seq<nat>, n: nat, result: PassResult)
  {
    && n <= |batch|
    && (result == Nothing <==> batch == [])
    && (result == AllSent <==> batch != [] && n == |batch|)
    && (result == Stopped <==> n < |batch|)
    && MarkedExactly(before, after, batch, n) && PendingCount(after) == PendingCount(before) - n
  }

  lemma NothingMarked<T>(rows: seq<OutboxRow<T>>, before: seq<T>, after: seq<T>)
    ensures MarkedAreSent(rows, rows, before, after)
  {
  }

  lemma MarkPrefixNext<T>(rows: seq<OutboxRow<T>>, batch: seq<nat>, i: nat)
    requires PendingRows(rows, batch) && i < |batch|
    ensures |Mark(rows, batch[..i])| == |rows|
    ensures Mark(rows, batch[..i + 1]) == Mark(rows, batch[..i])[batch[i] := rows[batch[i]].(status := Processed)]
  {
    assert batch[..i + 1] == batch[..i] + [batch[i]];
    MarkNext(rows, batch[..i], batch[i]);
  }

  lemma EventsNext<T>(rows: seq<OutboxRow<T>>, batch: seq<nat>, i: nat)
    requires i < |batch| && forall j :: 0 <= j < |batch| ==> batch[j] < |rows|
    ensures Events(rows, batch[..i + 1]) == Events(rows, batch[..i]) + [rows[batch[i]].event]
  {
  }

  // ---------------------------------------------------------------------------------------------
  // Draining
  // ---------------------------------------------------------------------------------------------

  /** A pass without a failure over some selection. */
  ghost predicate CleanPass<T>(rows: seq<OutboxRow<T>>, rows': seq<OutboxRow<T>>, limit: nat) {
    exists batch :: Selected(rows, batch, limit) && rows' == Mark(rows, batch)
  }

  /** `states[k]` is the table after `k` clean passes. */
  ghost predicate CleanPasses<T>(states: seq<seq<OutboxRow<T>>>, limit: nat) {
    forall k :: 0 <= k < |states| - 1 ==> CleanPass(states[k], states[k + 1], limit)
  }

  lemma {:induction false} DrainMeasure<T>(states: seq<seq<OutboxRow<T>>>, limit: nat, k: nat)
    requires CleanPasses(states, limit) && k < |states|
    ensures var n := PendingCount(states[0]);
            PendingCount(states[k]) == if n <= k * limit then 0 else n - k * limit
  {
    if k > 0 {
      DrainMeasure(states, limit, k - 1);
      assert CleanPass(states[k - 1], states[k], limit);
      var batch :| Selected(states[k - 1], batch, limit) && states[k] == Mark(states[k - 1], batch);
      MarkCounts(states[k - 1], batch);
      assert k * limit == (k - 1) * limit + limit;
    }
  }

  function CeilDiv(n: nat, d: nat): nat
    requires d > 0
  {
    (n + d - 1) / d
  }

  /** n pending rows are drained after exactly ceil(n / limit) clean passes, and not before. */
  lemma DrainsInCeilPasses<T>(states: seq<seq<OutboxRow<T>>>, limit: nat, k: nat)
    requires CleanPasses(states, limit) && k < |states| && limit > 0
    ensures PendingCount(states[k]) == 0 <==> k >= CeilDiv(PendingCount(states[0]), limit)
  {
    var n := PendingCount(states[0]);
    DrainMeasure(states, limit, k);
    CeilDivBound(n, limit, k);
  }

  /** n pending rows of the ledger are drained after exactly ceil(n / 10) passes without a failure. */
  lemma LedgerDrains<T>(states: seq<seq<OutboxRow<T>>>, k: nat)
    requires CleanPasses(states, LEDGER_BATCH) && k < |states|
    ensures PendingCount(states[k]) == 0 <==> 10 * k >= PendingCount(states[0])
    ensures PendingCount(states[k]) == 0 <==> k >= (PendingCount(states[0]) + 9) / 10
  {
    DrainsInCeilPasses(states, 10, k);
    CeilDivBound(PendingCount(states[0]), 10, k);
  }

  /** n pending rows of the gateway are drained after exactly ceil(n / 50) passes without a failure. */
  lemma GatewayDrains<T>(states: seq<seq<OutboxRow<T>>>, k: nat)
    requires CleanPasses(states, GATEWAY_BATCH) && k < |states|
    ensures PendingCount(states[k]) == 0 <==> 50 * k >= PendingCount(states[0])
    ensures PendingCount(states[k]) == 0 <==> k >= (PendingCount(states[0]) + 49) / 50
  {
    DrainsInCeilPasses(states, 50, k);
    CeilDivBound(PendingCount(states[0]), 50, k);
  }

  lemma CeilDivBound(n: nat, d: nat, k: nat)
    requires d > 0
    ensures n <= k * d <==> k >= CeilDiv(n, d)
  {
    var q := CeilDiv(n, d);
    assert q * d <= n + d - 1 < q * d + d;
    if k >= q {
      assert k * d >= q * d;
    } else {
      assert k * d <= (q - 1) * d == q * d - d;
    }
  }
}
