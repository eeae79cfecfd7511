/** End-to-end results: no accepted transaction is stranded, and gateway verdicts agree and are stable. */
module PipelineResults {
  import opened Common
  import opened Kafka
  import opened Ledger
  import opened LedgerInvariants
  import opened Settlement
  import opened Pipeline
  import opened PipelineInvariant
  import FraudScorer
  import OutboxRelay
  import SlidingWindow

  predicate Final(s: State, x: TxId) {
    x in s.rows && s.rows[x].status != Pending
  }

  // The durable carriers of a transaction.

  ghost predicate InGatewayOutbox(s: State, tx: RawTx) {
    exists i :: RowAt(s.outbox, tx, i) && s.outbox[i].status.Unsent?
  }

  ghost predicate DueInScored(s: State, tx: RawTx) {
    exists m :: Unacked(s.scored, s.poster, m) && m.raw == tx
  }

  ghost predicate InLedgerOutbox(s: State, x: TxId) {
    exists i :: EventAt(s.ledger, x, i) && s.ledger.outbox[i].status.Unsent?
  }

  ghost predicate DueInSettled(s: State, x: TxId) {
    exists e :: Unacked(s.settled, s.updater, e) && e.tx == x
  }

  /** Something durable and unacknowledged will still move the transaction on. */
  ghost predicate Carried(s: State, tx: RawTx) {
    || InGatewayOutbox(s, tx)
    || Unacked(s.raw, s.scorer, tx)
    || DueInScored(s, tx)
    || InLedgerOutbox(s, tx.id)
    || DueInSettled(s, tx.id)
  }

  lemma FirstHalf(raws: map<TxId, RawTx>, s: State, tx: RawTx)
    requires RowsOk(raws, s.outbox) && RawOk(raws, s.outbox, s.relaying, s.raw) && ScorerOk(s.raw, s.scorer, s.scored)
    requires Genuine(raws, tx)
    ensures InGatewayOutbox(s, tx) || Unacked(s.raw, s.scorer, tx) || IsHandled(s.raw, s.scorer, tx)
  {
    var i :| RowAt(s.outbox, raws[tx.id], i);
    if s.outbox[i].status.Processed? {
      HandledOrDue(s.raw, s.scorer, tx);
    }
  }

  lemma LedgerHalf(s: State, x: TxId)
    requires OneEventEach(s.ledger) && SettledOk(s.ledger, s.settling, s.settled)
    requires UpdaterOk(s.settled, s.updater, s.rows) && x in s.ledger.transactions
    ensures InLedgerOutbox(s, x) || DueInSettled(s, x) || Final(s, x)
  {
    var i :| EventAt(s.ledger, x, i);
    if s.ledger.outbox[i].status.Processed? {
      var e := s.ledger.outbox[i].event;
      HandledOrDue(s.settled, s.updater, e);
      if IsHandled(s.settled, s.updater, e) {
        assert Says(s.ledger, e);
        OneVerdict(s.ledger, e, e);
        assert Shows(s.rows, e);
      }
    }
  }

  lemma ScoredHalf(s: State, tx: RawTx)
    requires PosterOk(s.scored, s.poster, s.ledger) && HasScored(s.scored, tx)
    ensures DueInScored(s, tx) || tx.id in s.ledger.transactions
  {
    var m :| InLog(s.scored, m) && m.raw == tx;
    HandledOrDue(s.scored, s.poster, m);
  }

  /**
   * No stranded transaction: whatever crashed where, an accepted transaction of at most 1,000,000
   * cents is final at the gateway or still held by a durable, unacknowledged carrier.
   */
  lemma NothingStranded(c: Config, s: State, x: TxId)
    requires Startable(c.start) && Reachable(c, s)
    requires x in s.rows && s.rows[x].raw.amount <= 1_000_000
    ensures Final(s, x) || Carried(s, s.rows[x].raw)
  {
    ReachableInv(c, s);
    var raws, tx := Raws(s.rows), s.rows[x].raw;
    assert Genuine(raws, tx);
    FirstHalf(raws, s, tx);
    if IsHandled(s.raw, s.scorer, tx) {
      ScoredHalf(s, tx);
      if x in s.ledger.transactions {
        LedgerHalf(s, x);
      }
    }
  }

  /** A transaction above 1,000,000 cents never gets a verdict at all. */
  lemma OversizedStaysPending(c: Config, s: State, x: TxId)
    requires Startable(c.start) && Reachable(c, s)
    requires x in s.rows && s.rows[x].raw.amount > 1_000_000
    ensures !Final(s, x) && x !in s.ledger.transactions
    ensures Carried(s, s.rows[x].raw) ==>
              InGatewayOutbox(s, s.rows[x].raw) || Unacked(s.raw, s.scorer, s.rows[x].raw)
  {
    ReachableInv(c, s);
    var raws, tx := Raws(s.rows), s.rows[x].raw;
    assert raws[x] == tx;
    assert x !in s.ledger.transactions;
    NeverSaid(raws, s, tx);
    assert StatusOk(s.ledger, s.rows[x]);
    if DueInScored(s, tx) {
      var m :| Unacked(s.scored, s.poster, m) && m.raw == tx;
      var p, i :| UnackedAt(s.scored, s.poster, p, i, m);
      assert At(s.scored, p, i, m) && InLog(s.scored, m);
      var k :| 0 <= k < |s.scorings| && Gives(s.scorings[k], m);
      GivesFacts(s.scorings[k], m);
    }
  }

  lemma NeverSaid(raws: map<TxId, RawTx>, s: State, tx: RawTx)
    requires OneEventEach(s.ledger) && SettledOk(s.ledger, s.settling, s.settled) && tx.id !in s.ledger.transactions
    ensures forall e :: Says(s.ledger, e) ==> e.tx != tx.id
    ensures !InLedgerOutbox(s, tx.id) && !DueInSettled(s, tx.id)
  {
    if DueInSettled(s, tx.id) {
      var e :| Unacked(s.settled, s.updater, e) && e.tx == tx.id;
      var p, i :| UnackedAt(s.settled, s.updater, p, i, e);
      assert At(s.settled, p, i, e) && InLog(s.settled, e);
      assert false;
    }
  }

  /**
   * Exactly the transactions above 1,000,000 cents can be stranded: for them such a run exists in
   * every configuration with a raw partition, for no other transaction in any.
   */
  lemma StrandedExactly(c: Config, tx: RawTx)
    requires Startable(c.start) && c.rawParts > 0 && tx.amount <= INT_MAX
    ensures (exists s :: Reachable(c, s) && tx.id in s.rows && s.rows[tx.id].raw == tx
                         && !Final(s, tx.id) && !Carried(s, tx))
            <==> tx.amount > 1_000_000
  {
    if tx.amount > 1_000_000 {
      var s := Strand(c, tx);
    } else {
      forall s | Reachable(c, s) && tx.id in s.rows && s.rows[tx.id].raw == tx
        ensures Final(s, tx.id) || Carried(s, tx)
      {
        NothingStranded(c, s, tx.id);
      }
    }
  }

  /** Accept, publish, confirm, fetch, score, acknowledge: nothing is left that carries it. */
  lemma Strand(c: Config, tx: RawTx) returns (s: State)
    requires Startable(c.start) && c.rawParts > 0 && 1_000_000 < tx.amount <= INT_MAX
    ensures Reachable(c, s) && tx.id in s.rows && s.rows[tx.id].raw == tx && !Final(s, tx.id) && !Carried(s, tx)
  {
    var s4 := Deliver(c, tx);
    SlidingWindow.AdmitFacts(Window(s4, tx.sender), tx.id, tx.amount, 0, s4.span);
    var win := SlidingWindow.Admit(Window(s4, tx.sender), tx.id, tx.amount, 0, s4.span);
    FraudScorer.ExactDecision(tx, SlidingWindow.Total(win));
    var s5 := Next(s4, Score(0, 0));
    ReachNext(c, s4, Score(0, 0));
    s := Next(s5, AckCurrent(Scorer, 0));
    ReachNext(c, s5, AckCurrent(Scorer, 0));
    OversizedStaysPending(c, s, tx.id);
    AllAcked(s, tx);
  }

  /** Only `tx` was accepted, and nothing is in any topic. */
  ghost predicate OnlyAccepted(c: Config, s: State, tx: RawTx) {
    s == Init(c).(rows := map[tx.id := TxRow(tx, Pending, None)], outbox := [OutboxRow(tx, Unsent)])
  }

  lemma AcceptFirst(c: Config, tx: RawTx) returns (s: State)
    requires tx.amount <= INT_MAX
    ensures Reachable(c, s) && OnlyAccepted(c, s, tx)
  {
    assert Runs(Init(c), [], Init(c));
    s := Next(Init(c), Submit(tx));
    ReachNext(c, Init(c), Submit(tx));
  }

  /** Published and confirmed: the row is marked, and the message is alone in the raw topic. */
  lemma PublishFirst(c: Config, s: State, tx: RawTx) returns (t: State)
    requires c.rawParts > 0 && Reachable(c, s) && OnlyAccepted(c, s, tx)
    ensures Reachable(c, t)
    ensures t == s.(raw := Append(s.raw, 0, tx), outbox := [OutboxRow(tx, Processed)])
  {
    hide Reachable, Append;
    var u := Next(s, Publish(0, 0));
    ReachNext(c, s, Publish(0, 0));
    t := Next(u, Confirm({0}));
    ReachNext(c, u, Confirm({0}));
    assert OutboxRelay.MarkProcessed([OutboxRow(tx, Unsent)], {0}) == [OutboxRow(tx, Processed)];
    assert {0} - {0} == {};
  }

  /** The run up to the fetch: one row, marked, and one raw message, being worked on. */
  lemma Deliver(c: Config, tx: RawTx) returns (s: State)
    requires c.rawParts > 0 && tx.amount <= INT_MAX
    ensures Reachable(c, s) && tx.id in s.rows && s.rows[tx.id].raw == tx && s.outbox == [OutboxRow(tx, Processed)]
    ensures |s.raw| == |s.scorer| == c.rawParts && s.raw[0] == [tx] && s.clock == 0
    ensures forall p :: 1 <= p < |s.raw| ==> s.raw[p] == []
    ensures s.scorer[0] == Consumer(0, 1, Fetched)
  {
    hide Reachable;
    var s1 := AcceptFirst(c, tx);
    var s2 := PublishFirst(c, s1, tx);
    s := Next(s2, FetchNext(Scorer, 0));
    ReachNext(c, s2, FetchNext(Scorer, 0));
  }

  lemma AllAcked(s: State, tx: RawTx)
    requires s.outbox == [OutboxRow(tx, Processed)]
    requires 0 < |s.raw| == |s.scorer| && s.raw[0] == [tx] && s.scorer[0].committed == 1
    requires forall p :: 1 <= p < |s.raw| ==> s.raw[p] == []
    ensures !InGatewayOutbox(s, tx) && !Unacked(s.raw, s.scorer, tx)
  {
  }

  /**
   * Verdict agreement: a gateway status is PENDING without a reason, or the status the ledger
   * recorded for that id with the reason the ledger published.
   */
  lemma VerdictAgreement(c: Config, s: State, x: TxId)
    requires Startable(c.start) && Reachable(c, s) && x in s.rows
    ensures s.rows[x].status == Pending ==> s.rows[x].reason == None
    ensures s.rows[x].status != Pending ==>
              && x in s.ledger.transactions && s.ledger.transactions[x] == s.rows[x].status
              && ReasonMatches(s.rows[x].status, s.rows[x].reason)
              && exists i :: EventAt(s.ledger, x, i) && s.ledger.outbox[i].event.reason == s.rows[x].reason
  {
    ReachableInv(c, s);
    AgreementOf(s.ledger, s.rows[x]);
    assert s.rows[x].raw.id == x;
  }

  lemma AgreementOf(l: Ledger, row: TxRow)
    requires OneEventEach(l) && StatusOk(l, row)
    ensures row.status == Pending ==> row.reason == None
    ensures row.status != Pending ==>
              && row.raw.id in l.transactions && l.transactions[row.raw.id] == row.status
              && ReasonMatches(row.status, row.reason)
              && exists i :: EventAt(l, row.raw.id, i) && l.outbox[i].event.reason == row.reason
  {
    if e :| Says(l, e) && e.tx == row.raw.id && row.status == e.status && row.reason == e.reason {
      OneVerdict(l, e, e);
      var i :| 0 <= i < |l.outbox| && l.outbox[i].event == e;
      assert EventAt(l, row.raw.id, i);
    }
  }

  /** Only the status update touches an existing row, and over a verdict it writes the same verdict. */
  lemma StepKeepsFinal(start: map<AccountId, int>, s: State, step: Step, x: TxId)
    requires Inv(start, s) && Enabled(s, step) && Final(s, x)
    ensures x in Next(s, step).rows && Next(s, step).rows[x] == s.rows[x]
  {
    if step.Update? {
      SaysKnown(Raws(s.rows), s.scorings, s.ledger);
      UpdateKeepsFinal(s.rows, s.ledger, s.settled, s.updater, step.p, x);
    } else {
      OtherStepsKeepRows(s, step, x);
    }
  }

  lemma OtherStepsKeepRows(s: State, step: Step, x: TxId)
    requires Enabled(s, step) && !step.Update? && x in s.rows
    ensures x in Next(s, step).rows && Next(s, step).rows[x] == s.rows[x]
  {
    hide FraudScorer.Score, Attempt, Apply, SlidingWindow.Admit, SlidingWindow.Remove,
      OutboxRelay.MarkProcessed, Overwrite, Fetch, SetWork, Ack, Restart, Append, Working, Fetchable;
  }

  lemma UpdateKeepsFinal(
    rows: map<TxId, TxRow>, ledger: Ledger, settled: Topic<Settled>, updater: seq<Consumer>, p: nat, x: TxId)
    requires OneEventEach(ledger) && (forall e :: InLog(settled, e) ==> Says(ledger, e))
    requires forall e :: Says(ledger, e) ==> e.tx in Raws(rows)
    requires StatusesOk(rows, ledger) && GroupOk(settled, updater) && Working(settled, updater, p)
    requires x in rows && rows[x].status != Pending
    ensures var rows' := Overwrite(rows, Current(settled, updater, p)); x in rows' && rows'[x] == rows[x]
  {
    var e := Current(settled, updater, p);
    assert InLog(settled, e) by { WorkGroup(settled, updater, p, Handled); }
    assert e.tx in Raws(rows);
    UpdateInPlace(rows, ledger, e);
  }

  /**
   * Verdict stability: once a gateway status is not PENDING, neither it nor its reason ever changes,
   * however often messages are repeated, reordered or scored again.
   */
  lemma {:induction false} FinalIsFinal(start: map<AccountId, int>, s: State, steps: seq<Step>, t: State, x: TxId)
    requires Inv(start, s) && Runs(s, steps, t) && Final(s, x)
    ensures x in t.rows && t.rows[x] == s.rows[x]
    decreases |steps|
  {
    hide Inv, Next, Enabled;
    if steps != [] {
      StepKeepsFinal(start, s, steps[0], x);
      StepKeepsInv(start, s, steps[0]);
      FinalIsFinal(start, Next(s, steps[0]), steps[1..], t, x);
    }
  }

  lemma VerdictStability(c: Config, s: State, steps: seq<Step>, t: State, x: TxId)
    requires Startable(c.start) && Reachable(c, s) && Runs(s, steps, t) && Final(s, x)
    ensures x in t.rows && t.rows[x] == s.rows[x]
  {
    ReachableInv(c, s);
    FinalIsFinal(c.start, s, steps, t, x);
  }

  /** What an acknowledged scored message means: the ledger has recorded its transaction. */
  lemma AckedIsRecorded(c: Config, s: State, p: nat, i: nat)
    requires Startable(c.start) && Reachable(c, s)
    requires p < |s.scored| && i < |s.scored[p]| && p < |s.poster| && i < s.poster[p].committed
    ensures s.scored[p][i].raw.id in s.ledger.transactions
  {
    ReachableInv(c, s);
    assert HandledAt(s.scored, s.poster, p, i, s.scored[p][i]);
  }

  /**
   * When the positive starting money fits BIGINT, the ledger loop never meets a column overflow: only
   * amounts of at most 1,000,000 cents get a score at all.
   */
  lemma PostNeverRaises(c: Config, s: State, p: nat)
    requires Startable(c.start) && Reachable(c, s) && Sum(Positive(c.start)) <= 9_223_372_036_854_775_807
    requires Working(s.scored, s.poster, p)
    ensures Attempt(s.ledger, Current(s.scored, s.poster, p)) != WidthFault
  {
    ReachableInv(c, s);
    var tx := Current(s.scored, s.poster, p);
    assert InLog(s.scored, tx) by { WorkGroup(s.scored, s.poster, p, Handled); }
    var k :| 0 <= k < |s.scorings| && Gives(s.scorings[k], tx);
    GivesFacts(s.scorings[k], tx);
    RaisesExactly(c.start, s.ledger, tx);
  }
}
