/**
 * What one `create_ledger` call leaves in the database, column by column: an independent description
 * in terms of balances, statuses, reasons and entries only.
 */
module LedgerVerdicts {
  import opened Common
  import opened Ledger

  /** Both accounts exist and differ. */
  predicate AccountsThere(l: Ledger, tx: RawTx) {
    tx.sender in l.balances && tx.receiver in l.balances && tx.sender != tx.receiver
  }

  /** The transfer is approved and covered, to the cent. */
  predicate Pays(l: Ledger, tx: ScoredTx) {
    tx.decision == DecisionApproved && AccountsThere(l, tx.raw) && tx.raw.amount <= l.balances[tx.raw.sender]
  }

  /**
   * The values of an approved transfer fit an INTEGER entry and BIGINT balances, and the balances satisfy
   * the CHECK: only account zero may be negative.
   */
  predicate Fits(l: Ledger, tx: ScoredTx) {
    tx.decision == DecisionApproved ==>
      && tx.raw.amount <= 2_147_483_647
      && (forall a :: a in l.balances ==> a == 0 || 0 <= l.balances[a])
      && (forall a :: a in l.balances ==> l.balances[a] <= 9_223_372_036_854_775_807)
      && (tx.raw.receiver in l.balances ==>
            l.balances[tx.raw.receiver] + tx.raw.amount <= 9_223_372_036_854_775_807)
  }

  /** Completed iff approved, both accounts there and distinct, and the money there. */
  predicate StatusExact(l: Ledger, tx: ScoredTx, status: TxStatus) {
    && (status == Completed <==> Pays(l, tx))
    && (status == Blocked <==> tx.decision == DecisionFlagged)
    && (status == Rejected <==>
          tx.decision == DecisionRejected || (tx.decision == DecisionApproved && !Pays(l, tx)))
  }

  predicate ReasonExact(l: Ledger, tx: ScoredTx, reason: Option<Reason>) {
    && (reason == None <==> Pays(l, tx))
    && (reason == Some(RejectedFraud) <==> tx.decision == DecisionRejected)
    && (reason == Some(BlockedSuspicious) <==> tx.decision == DecisionFlagged)
    && (reason == Some(AccountMissing) <==> tx.decision == DecisionApproved && !AccountsThere(l, tx.raw))
    && (reason == Some(InsufficientFunds) <==>
          tx.decision == DecisionApproved && AccountsThere(l, tx.raw) && l.balances[tx.raw.sender] < tx.raw.amount)
  }

  /** The sender loses and the receiver gains exactly the amount if it pays; every other balance stays. */
  predicate MoneyExact(l: Ledger, tx: ScoredTx, l': Ledger) {
    && l'.balances.Keys == l.balances.Keys
    && forall a :: a in l.balances ==>
         l'.balances[a] ==
         if Pays(l, tx) && a == tx.raw.sender then l.balances[a] - tx.raw.amount
         else if Pays(l, tx) && a == tx.raw.receiver then l.balances[a] + tx.raw.amount
         else l.balances[a]
  }

  /** One debit of the sender and one credit of the receiver if it pays, nothing otherwise. */
  predicate EntriesExact(l: Ledger, tx: ScoredTx, l': Ledger) {
    var t := tx.raw;
    l'.entries ==
    if Pays(l, tx)
    then l.entries + [Entry(t.id, t.sender, Debit, t.amount), Entry(t.id, t.receiver, Credit, t.amount)]
    else l.entries
  }

  /** Everything a call that records `tx` writes. */
  predicate Settles(l: Ledger, tx: ScoredTx, l': Ledger) {
    && l'.transactions.Keys == l.transactions.Keys + {tx.raw.id}
    && (forall x :: x in l.transactions && x != tx.raw.id ==> l'.transactions[x] == l.transactions[x])
    && StatusExact(l, tx, l'.transactions[tx.raw.id])
    && |l'.outbox| == |l.outbox| + 1 && l'.outbox[..|l.outbox|] == l.outbox
    && (var row := l'.outbox[|l.outbox|];
        && row.status == Unsent
        && row.event.tx == tx.raw.id && row.event.sender == tx.raw.sender && row.event.amount == tx.raw.amount
        && row.event.status == l'.transactions[tx.raw.id]
        && ReasonExact(l, tx, row.event.reason))
    && MoneyExact(l, tx, l')
    && EntriesExact(l, tx, l')
  }

  /** The verdict of the locked rows is the one described above, whatever the balances. */
  lemma JudgeExactly(l: Ledger, tx: ScoredTx)
    ensures StatusExact(l, tx, Judge(l.balances, tx).status) && ReasonExact(l, tx, Judge(l.balances, tx).reason)
  {
  }

  /** A call on a new transaction whose values fit settles it exactly so. */
  lemma VerdictExactly(l: Ledger, tx: ScoredTx)
    requires tx.raw.id !in l.transactions && Fits(l, tx)
    ensures Settles(l, tx, Apply(l, tx)) && Attempt(l, tx).Committed?
  {
    var l' := Apply(l, tx);
    if Pays(l, tx) {
      assert l'.balances.Keys == l.balances.Keys;
    }
  }

  /** Which balances the table accepts: only account zero may go below zero. */
  lemma CheckExactly(balances: map<AccountId, int>)
    ensures (forall a :: a in balances ==> CheckHolds(a, balances[a]))
            <==> (forall a :: a in balances ==> a == 0 || 0 <= balances[a])
  {
  }
}
