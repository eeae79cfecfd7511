/** Message and status types shared by the services (common/models.py). */
module Common {

  /** UUIDs, compared as numbers: the ledger sorts account ids before locking them. */
  type AccountId = nat
  type TxId = nat

  /** `amount_cents` is validated to be strictly positive before any service sees a message. */
  type Cents = n: int | 0 < n witness 1

  /** Column widths: `Integer` for amounts, `BigInteger` for balances. */
  const INT_MAX: int := 0x7FFF_FFFF
  const BIGINT_MAX: int := 0x7FFF_FFFF_FFFF_FFFF

  datatype Option<+T> = None | Some(value: T)

  datatype TxStatus = Pending | Completed | Approved | Rejected | Blocked

  datatype Decision = DecisionApproved | DecisionRejected | DecisionFlagged

  datatype Reason = RejectedFraud | BlockedSuspicious | AccountMissing | InsufficientFunds

  datatype OutboxStatus = Unsent | Processed

  datatype RawTx = RawTx(
    id: TxId, key: string, sender: AccountId, receiver: AccountId, amount: Cents, geo: Option<string>)
  {
    /** Python truth of `metadata.geo_location`: neither absent nor empty. */
    predicate HasGeo() {
      geo.Some? && geo.value != ""
    }
  }

  datatype ScoredTx = ScoredTx(raw: RawTx, score: nat, decision: Decision)

  datatype Settled = Settled(
    sender: AccountId, tx: TxId, amount: Cents, status: TxStatus, reason: Option<Reason>)
  {
    /** The statuses for which the processor gives the velocity back. */
    predicate Refunds() {
      status == Rejected || status == Blocked
    }
  }

  datatype OutboxRow<+T> = OutboxRow(event: T, status: OutboxStatus)

  /** A Redis call works, fails before the server ran it, or fails after (the reply is lost). */
  datatype RedisFault = Works | NotApplied | ReplyLost

  /** What the database connection does to one transaction, beyond the constraints. */
  datatype DbFault = NoDbFault | FailsBeforeCommit | CommitReplyLost
}
