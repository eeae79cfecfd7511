/**
 * What the steps of the pipeline do, seen from outside: windows by their members, topics by their
 * messages, tables by their columns. None of it is stated through the functions the steps are made of.
 */
module PipelineSteps {
  import opened Common
  import opened Kafka
  import opened Ledger
  import opened LedgerVerdicts
  import opened Settlement
  import opened Pipeline
  import FraudScorer
  import OutboxRelay
  import SlidingWindow

  /** The window of the account holds this transaction with this amount. */
  predicate Counts(s: State, account: AccountId, id: TxId, amount: nat) {
    account in s.windows && exists e :: e in s.windows[account] && e.id == id && e.amount == amount
  }

  /** A rejected or blocked transaction leaves its sender's window, and nothing else leaves any window. */
  lemma RefundExactly(s: State, p: nat)
    requires Working(s.settled, s.refunder, p) && s.refunder[p].work.Fetched?
    ensures Enabled(s, Refund(p))
    ensures var e, t := Current(s.settled, s.refunder, p), Next(s, Refund(p));
            && (e.status == Rejected || e.status == Blocked ==> !Counts(t, e.sender, e.tx, e.amount))
            && (e.status != Rejected && e.status != Blocked ==> t.windows == s.windows)
            && (forall a, id, amount :: !(a == e.sender && id == e.tx && amount == e.amount) ==>
                  (Counts(t, a, id, amount) <==> Counts(s, a, id, amount)))
            && t.deadlines == s.deadlines && t.rows == s.rows && t.ledger == s.ledger
  {
    var e, t := Current(s.settled, s.refunder, p), Next(s, Refund(p));
    if e.Refunds() && e.sender in s.windows {
      var w := s.windows[e.sender];
      assert t.windows[e.sender] == SlidingWindow.Remove(w, e.tx, e.amount);
      forall a, id, amount | !(a == e.sender && id == e.tx && amount == e.amount)
        ensures Counts(t, a, id, amount) <==> Counts(s, a, id, amount)
      {
        if a == e.sender {
          RemovedOthersStay(w, e.tx, e.amount, id, amount);
        }
      }
    }
  }

  lemma RemovedOthersStay(w: seq<SlidingWindow.Entry>, gone: TxId, goneAmount: nat, id: TxId, amount: nat)
    requires id != gone || amount != goneAmount
    ensures (exists e :: e in SlidingWindow.Remove(w, gone, goneAmount) && e.id == id && e.amount == amount)
            <==> (exists e :: e in w && e.id == id && e.amount == amount)
  {
    if e :| e in w && e.id == id && e.amount == amount {
      assert e in SlidingWindow.Remove(w, gone, goneAmount);
    }
  }

  /**
   * A scoring puts the transaction into its sender's window, which keeps nothing older than the window
   * length and loses nothing younger; the message to send has the exact score of the window's total, and
   * there is none above 1,000,000 cents.
   */
  lemma ScoreExactly(s: State, p: nat, now: nat)
    requires Working(s.raw, s.scorer, p) && s.scorer[p].work.Fetched? && s.clock <= now
    ensures Enabled(s, Score(p, now))
    ensures var tx, t := Current(s.raw, s.scorer, p), Next(s, Score(p, now));
            && tx.sender in t.windows && t.deadlines == s.deadlines[tx.sender := now + s.span]
            && (forall e :: e in t.windows[tx.sender] <==>
                  || (e.id == tx.id && e.amount == tx.amount && e.at == now)
                  || (e in Window(s, tx.sender) && e.at + s.span > now && !(e.id == tx.id && e.amount == tx.amount)))
            && (forall a :: a != tx.sender ==> Window(t, a) == Window(s, a))
            && (if tx.amount > 1_000_000 then t.scorer[p].work == Handled
                else
                  && t.scorer[p].work.Ready?
                  && FraudScorer.ScoredAs(tx, SlidingWindow.Total(t.windows[tx.sender]), t.scorer[p].work.result))
            && t.scored == s.scored
  {
    var tx := Current(s.raw, s.scorer, p);
    var win := SlidingWindow.Admit(Window(s, tx.sender), tx.id, tx.amount, now, s.span);
    SlidingWindow.AdmitFacts(Window(s, tx.sender), tx.id, tx.amount, now, s.span);
    FraudScorer.ExactScore(tx, SlidingWindow.Total(win));
    hide SlidingWindow.Admit, SlidingWindow.Total, FraudScorer.Score, FraudScorer.ScoredAs;
  }

  /** A posting settles a new transaction exactly, and leaves the ledger alone for a recorded one. */
  lemma PostExactly(s: State, p: nat)
    requires Working(s.scored, s.poster, p) && s.poster[p].work.Fetched?
    ensures Enabled(s, Post(p))
    ensures var tx, t := Current(s.scored, s.poster, p), Next(s, Post(p));
            && (tx.raw.id in s.ledger.transactions ==> t.ledger == s.ledger && t.poster[p].work == Handled)
            && (tx.raw.id !in s.ledger.transactions && Fits(s.ledger, tx) ==>
                  Settles(s.ledger, tx, t.ledger) && t.poster[p].work == Handled)
            && t.rows == s.rows && t.windows == s.windows
  {
    var tx := Current(s.scored, s.poster, p);
    hide Fits, Settles;
    if tx.raw.id !in s.ledger.transactions && Fits(s.ledger, tx) {
      VerdictExactly(s.ledger, tx);
    }
  }

  /** A new transaction with a free key and an amount that fits its column: one PENDING row, one event. */
  lemma SubmitExactly(s: State, tx: RawTx)
    requires tx.id !in s.rows && tx.amount <= 2_147_483_647
    requires forall x :: x in s.rows ==> s.rows[x].raw.key != tx.key
    ensures Enabled(s, Submit(tx))
    ensures var t := Next(s, Submit(tx));
            && t.rows == s.rows[tx.id := TxRow(tx, Pending, None)]
            && t.outbox == s.outbox + [OutboxRow(tx, Unsent)] && t.raw == s.raw && t.ledger == s.ledger
  {
  }

  /** A window's key may vanish once its time to live is over; nothing else changes. */
  lemma ExpiryExactly(s: State, account: AccountId, now: nat)
    requires account in s.windows && account in s.deadlines && s.deadlines[account] <= now && s.clock <= now
    ensures Enabled(s, ExpireKey(account, now))
    ensures var t := Next(s, ExpireKey(account, now));
            && t.windows == s.windows - {account} && t.rows == s.rows && t.ledger == s.ledger
            && t.scorings == s.scorings && t.clock == now
  {
  }

  /** The status update writes status and reason of one row, if it is there. */
  lemma UpdateExactly(s: State, p: nat)
    requires Working(s.settled, s.updater, p) && s.updater[p].work.Fetched?
    ensures Enabled(s, Update(p))
    ensures var e, t := Current(s.settled, s.updater, p), Next(s, Update(p));
            && t.rows.Keys == s.rows.Keys
            && (e.tx in s.rows ==>
                  && t.rows[e.tx].status == e.status && t.rows[e.tx].reason == e.reason
                  && t.rows[e.tx].raw == s.rows[e.tx].raw)
            && (forall x :: x in s.rows && x != e.tx ==> t.rows[x] == s.rows[x])
            && t.ledger == s.ledger && t.windows == s.windows
  {
  }

  /** Row `i` is marked exactly if it is in `done` or was marked before; its event never changes. */
  predicate Marked<T(==)>(before: seq<OutboxRow<T>>, after: seq<OutboxRow<T>>, done: set<nat>) {
    && |after| == |before|
    && forall i :: 0 <= i < |before| ==>
         && after[i].event == before[i].event
         && (after[i].status == Processed <==> i in done || before[i].status == Processed)
  }

  /** The gateway relay may commit or lose any part of what it sent: the commit marks just that, a crash nothing. */
  lemma GatewayRelayExactly(s: State, done: set<nat>)
    requires done <= s.relaying
    ensures Enabled(s, Confirm(done)) && Enabled(s, Drop(done))
    ensures var t := Next(s, Confirm(done)); Marked(s.outbox, t.outbox, done) && t.relaying == s.relaying - done
    ensures var t := Next(s, Drop(done)); t.outbox == s.outbox && t.raw == s.raw && t.relaying == s.relaying - done
  {
  }

  lemma LedgerRelayExactly(s: State, done: set<nat>)
    requires done <= s.settling
    ensures Enabled(s, ConfirmSettled(done)) && Enabled(s, DropSettled(done))
    ensures var t := Next(s, ConfirmSettled(done));
            && Marked(s.ledger.outbox, t.ledger.outbox, done) && t.settling == s.settling - done
            && t.ledger.(outbox := s.ledger.outbox) == s.ledger
    ensures var t := Next(s, DropSettled(done));
            t.ledger == s.ledger && t.settled == s.settled && t.settling == s.settling - done
  {
  }

  /** A pending row that is not in flight can be published: its own event goes to the end of one partition. */
  lemma GatewayPublicationExactly(s: State, i: nat, p: nat)
    requires i < |s.outbox| && s.outbox[i].status == Unsent && i !in s.relaying && p < |s.raw|
    ensures Enabled(s, Publish(i, p))
    ensures var t := Next(s, Publish(i, p));
            && |t.raw| == |s.raw| && t.raw[p] == s.raw[p] + [s.outbox[i].event]
            && (forall q :: 0 <= q < |s.raw| && q != p ==> t.raw[q] == s.raw[q])
            && t.outbox == s.outbox && t.relaying == s.relaying + {i}
  {
  }

  lemma LedgerPublicationExactly(s: State, i: nat, p: nat)
    requires i < |s.ledger.outbox| && s.ledger.outbox[i].status == Unsent && i !in s.settling && p < |s.settled|
    ensures Enabled(s, PublishSettled(i, p))
    ensures var t := Next(s, PublishSettled(i, p));
            && |t.settled| == |s.settled| && t.settled[p] == s.settled[p] + [s.ledger.outbox[i].event]
            && (forall q :: 0 <= q < |s.settled| && q != p ==> t.settled[q] == s.settled[q])
            && t.ledger == s.ledger && t.settling == s.settling + {i}
  {
  }

  /** Any consumer may stop at any time; it then starts again at its committed offset, and nothing else changes. */
  lemma RestartsExactly(s: State, g: Group, p: nat)
    requires p < |Consumers(s, g)|
    ensures Enabled(s, RestartGroup(g, p))
    ensures var t := Next(s, RestartGroup(g, p));
            var k := Consumers(s, g)[p].committed;
            && Consumers(t, g) == Consumers(s, g)[p := Consumer(k, k, Idle)]
            && WithConsumers(t, g, Consumers(s, g)) == s
  {
  }
}
