/** `create_ledger` and the consumer loop of services/ledger/main.py, as they run. */
module LedgerService {
  import opened Common
  import opened Ledger
  import opened LedgerInvariants
  import opened LedgerVerdicts

  /** The ORM session: what will be written if the session commits. */
  class Session {
    var dirty: map<AccountId, int>
    var posted: map<TxId, TxStatus>
    var entries: seq<Entry>
    var events: seq<OutboxRow<Settled>>

    constructor ()
      ensures dirty == map[] && posted == map[] && entries == [] && events == []
    {
      dirty, posted, entries, events := map[], map[], [], [];
    }
  }

  datatype FlushResult = Flushed | IntegrityError | WidthError

  class LedgerDb {
    var balances: map<AccountId, int>
    var transactions: map<TxId, TxStatus>
    var entries: seq<Entry>
    var outbox: seq<OutboxRow<Settled>>

    constructor (start: map<AccountId, int>)
      ensures State() == Fresh(start)
    {
      balances, transactions, entries, outbox := start, map[], [], [];
    }

    function State(): Ledger
      reads this
    {
      Ledger(balances, transactions, entries, outbox)
    }

    /**
     * Adds the row and flushes: the dirty balances and the insert meet their constraints here. A flush
     * that breaks several of them reports one, a width first or last.
     */
    method PostTransaction(id: TxId, status: TxStatus, session: Session, widthFirst: bool)
      returns (result: FlushResult)
      modifies session
      ensures session.posted == old(session.posted)[id := status]
      ensures unchanged(session`dirty) && unchanged(session`entries) && unchanged(session`events)
      ensures result.IntegrityError? <==>
                Conflicts(transactions, id, session.dirty) && !(widthFirst && TooWide(session.dirty))
      ensures result.WidthError? <==>
                TooWide(session.dirty) && (widthFirst || !Conflicts(transactions, id, session.dirty))
    {
      session.posted := session.posted[id := status];
      var conflict, wide := Conflicts(transactions, id, session.dirty), TooWide(session.dirty);
      if wide && (widthFirst || !conflict) {
        return WidthError;
      }
      result := if conflict then IntegrityError else Flushed;
    }

    method CreateOutboxEntry(tx: RawTx, finalStatus: TxStatus, reason: Option<Reason>, session: Session)
      modifies session
      ensures session.events == old(session.events) + [OutboxRow(EventOf(tx, Verdict(finalStatus, reason)), Unsent)]
      ensures unchanged(session`dirty) && unchanged(session`entries) && unchanged(session`posted)
    {
      var settled := Settled(tx.sender, tx.id, tx.amount, finalStatus, reason);
      session.events := session.events + [OutboxRow(settled, Unsent)];
    }

    /** The entries are flushed last; then all staged rows appear at once, or none. */
    method Commit(session: Session) returns (widthError: bool)
      requires session.dirty.Keys <= balances.Keys
      modifies this
      ensures widthError <==> exists i :: 0 <= i < |session.entries| && session.entries[i].amount > INT_MAX
      ensures widthError ==> State() == old(State())
      ensures !widthError ==> State() == old(
                Ledger(balances + session.dirty, transactions + session.posted,
                       entries + session.entries, outbox + session.events))
    {
      widthError := exists i :: 0 <= i < |session.entries| && session.entries[i].amount > INT_MAX;
      if !widthError {
        balances := balances + session.dirty;
        transactions := transactions + session.posted;
        entries := entries + session.entries;
        outbox := outbox + session.events;
      }
    }

    /** Lock and read the two rows, check the funds, and put the new absolute balances on the objects. */
    method MoveFunds(tx: RawTx, session: Session)
      returns (finalStatus: TxStatus, failureReason: Option<Reason>)
      requires session.dirty == map[]
      modifies session
      ensures unchanged(session`posted) && unchanged(session`entries) && unchanged(session`events)
      ensures Verdict(finalStatus, failureReason) == Judge(balances, ScoredTx(tx, 0, DecisionApproved))
      ensures session.dirty == if finalStatus == Completed then Dirty(balances, tx) else map[]
      ensures var approved := ScoredTx(tx, 0, DecisionApproved);
              && StatusExact(State(), approved, finalStatus) && ReasonExact(State(), approved, failureReason)
              && (finalStatus == Completed ==>
                    session.dirty == map[tx.sender := balances[tx.sender] - tx.amount,
                                         tx.receiver := balances[tx.receiver] + tx.amount])
    {
      JudgeExactly(State(), ScoredTx(tx, 0, DecisionApproved));
      finalStatus, failureReason := Completed, None;
      var found := set a | a in balances && (a == tx.sender || a == tx.receiver);
      FoundTwo(balances, tx, found);
      if |found| != 2 {
        finalStatus, failureReason := Rejected, Some(AccountMissing);
      } else if balances[tx.sender] < tx.amount {
        finalStatus, failureReason := Rejected, Some(InsufficientFunds);
      } else {
        session.dirty := session.dirty[tx.sender := balances[tx.sender] - tx.amount];
        session.dirty := session.dirty[tx.receiver := balances[tx.receiver] + tx.amount];
      }
    }

    /** Everything `create_ledger` does before it commits. */
    method Stage(tx: ScoredTx, session: Session, widthFirst: bool) returns (result: FlushResult)
      requires session.dirty == map[] && session.posted == map[] && session.entries == [] && session.events == []
      modifies session
      ensures Staged(State(), tx, session.dirty, session.posted, session.entries, session.events)
      ensures tx.raw.id in session.posted && StatusExact(State(), tx, session.posted[tx.raw.id])
      ensures |session.events| == 1 && ReasonExact(State(), tx, session.events[0].event.reason)
      ensures result.WidthError? <==>
                BalanceOverflows(balances, tx) && (widthFirst || Attempt(State(), tx) != IntegrityFault)
      ensures result.IntegrityError? <==>
                Attempt(State(), tx) == IntegrityFault && !(widthFirst && BalanceOverflows(balances, tx))
    {
      var raw := tx.raw;
      JudgeExactly(State(), tx);
      if tx.decision == DecisionRejected {
        result := PostTransaction(raw.id, Rejected, session, widthFirst);
        CreateOutboxEntry(raw, Rejected, Some(RejectedFraud), session);
      } else if tx.decision == DecisionFlagged {
        result := PostTransaction(raw.id, Blocked, session, widthFirst);
        CreateOutboxEntry(raw, Blocked, Some(BlockedSuspicious), session);
      } else {
        var finalStatus, failureReason := MoveFunds(raw, session);
        DirtyFaults(State(), tx, session.dirty);
        result := PostTransaction(raw.id, finalStatus, session, widthFirst);
        CreateOutboxEntry(raw, finalStatus, failureReason, session);
        if finalStatus == Completed {
          session.entries := session.entries + Postings(raw);
        }
      }
    }

    /** One `create_ledger` call is one `Apply`, or nothing when the connection fails before the commit. */
    method CreateLedger(tx: ScoredTx, fault: DbFault, widthFirst: bool) returns (raised: bool)
      modifies this
      ensures State() == if fault.FailsBeforeCommit? then old(State()) else Apply(old(State()), tx)
      ensures tx.raw.id in old(transactions) || fault.FailsBeforeCommit? ==> State() == old(State())
      ensures tx.raw.id !in old(transactions) && !fault.FailsBeforeCommit? && Fits(old(State()), tx) ==>
                Settles(old(State()), tx, State())
      ensures raised <==>
              || fault.FailsBeforeCommit?
              || Raises(old(State()), tx, widthFirst)
              || (fault.CommitReplyLost? && Attempt(old(State()), tx).Committed?)
    {
      hide Settles, Fits;
      if fault.FailsBeforeCommit? {
        return true;
      }
      if tx.raw.id !in transactions && Fits(State(), tx) {
        VerdictExactly(State(), tx);
      }
      var session := new Session();
      var result := Stage(tx, session, widthFirst);
      if !result.Flushed? {
        return result.WidthError?;
      }
      StagedIsStep(State(), tx, session.dirty, session.posted, session.entries, session.events);
      raised := Commit(session);
      raised := raised || fault.CommitReplyLost?;
    }
  }

  /** The row of the id exists, or a changed balance fails the CHECK. */
  predicate Conflicts(transactions: map<TxId, TxStatus>, id: TxId, dirty: map<AccountId, int>) {
    id in transactions || exists a :: a in dirty && !CheckHolds(a, dirty[a])
  }

  predicate TooWide(dirty: map<AccountId, int>) {
    exists a :: a in dirty && dirty[a] > BIGINT_MAX
  }

  /** The changed balances meet their constraints exactly as the atomic step says. */
  lemma DirtyFaults(l: Ledger, tx: ScoredTx, dirty: map<AccountId, int>)
    requires tx.decision.DecisionApproved?
    requires dirty == if Judge(l.balances, tx).status.Completed? then Dirty(l.balances, tx.raw) else map[]
    ensures TooWide(dirty) <==> BalanceOverflows(l.balances, tx)
    ensures Conflicts(l.transactions, tx.raw.id, dirty) <==> Attempt(l, tx) == IntegrityFault
  {
    if Judge(l.balances, tx).status.Completed? {
      var b := Transfer(l.balances, tx.raw);
      assert dirty.Keys == {tx.raw.sender, tx.raw.receiver};
      assert b[tx.raw.sender] == dirty[tx.raw.sender] && b[tx.raw.receiver] == dirty[tx.raw.receiver];
    }
  }

  /** The balances a completed transfer changes. */
  function Dirty(balances: map<AccountId, int>, tx: RawTx): map<AccountId, int>
    requires BothFound(balances, tx)
  {
    map[tx.sender := balances[tx.sender] - tx.amount, tx.receiver := balances[tx.receiver] + tx.amount]
  }

  ghost predicate Staged(
    l: Ledger, tx: ScoredTx, dirty: map<AccountId, int>, posted: map<TxId, TxStatus>,
    entries: seq<Entry>, events: seq<OutboxRow<Settled>>)
  {
    var v := Judge(l.balances, tx);
    && dirty == (if v.status.Completed? then Dirty(l.balances, tx.raw) else map[])
    && posted == map[tx.raw.id := v.status]
    && entries == (if v.status.Completed? then Postings(tx.raw) else [])
    && events == [OutboxRow(EventOf(tx.raw, v), Unsent)]
  }

  /** Committing what was flushed is the atomic step, and the entries fail exactly when it says so. */
  lemma StagedIsStep(
    l: Ledger, tx: ScoredTx, dirty: map<AccountId, int>, posted: map<TxId, TxStatus>,
    entries: seq<Entry>, events: seq<OutboxRow<Settled>>)
    requires Staged(l, tx, dirty, posted, entries, events)
    requires Attempt(l, tx) != IntegrityFault && !BalanceOverflows(l.balances, tx)
    ensures Attempt(l, tx) == WidthFault <==> exists i :: 0 <= i < |entries| && entries[i].amount > INT_MAX
    ensures Attempt(l, tx) != WidthFault ==>
              Apply(l, tx) == Ledger(l.balances + dirty, l.transactions + posted,
                                     l.entries + entries, l.outbox + events)
  {
    if Judge(l.balances, tx).status.Completed? {
      assert l.balances + dirty == Transfer(l.balances, tx.raw);
      assert entries[0].amount == tx.raw.amount;
    }
  }

  lemma FoundTwo(balances: map<AccountId, int>, tx: RawTx, found: set<AccountId>)
    requires found == set a | a in balances && (a == tx.sender || a == tx.receiver)
    ensures |found| == 2 <==> BothFound(balances, tx)
  {
    if BothFound(balances, tx) {
      assert found == {tx.sender, tx.receiver};
    } else if tx.sender in balances {
      assert found == {tx.sender};
    } else if tx.receiver in balances {
      assert found == {tx.receiver};
    } else {
      assert found == {};
    }
  }

  /** A message of the scored topic: valid, or refused by the schema and skipped. */
  datatype Incoming = Valid(tx: ScoredTx) | Invalid

  function Payloads(log: seq<Incoming>): seq<ScoredTx> {
    if log == [] then []
    else
      var last := log[|log| - 1];
      Payloads(log[..|log| - 1]) + if last.Valid? then [last.tx] else []
  }

  /** `widthFirst` is the order in which a flush with several faults reports them. */
  datatype MessageFault = MessageFault(db: DbFault, widthFirst: bool, ackFails: bool)

  /** The offset moves over a message exactly when nothing raises and the offset commit works. */
  predicate Acks(l: Ledger, message: Incoming, fault: MessageFault) {
    && !fault.ackFails
    && (message.Valid? ==>
          && !fault.db.FailsBeforeCommit?
          && !Raises(l, message.tx, fault.widthFirst)
          && !(fault.db.CommitReplyLost? && Attempt(l, message.tx).Committed?))
  }

  /** The ledger before message `i` of a loop that started at `from`. */
  function Before(first: Ledger, log: seq<Incoming>, from: nat, i: nat): Ledger
    requires from <= i <= |log|
  {
    Replay(first, Payloads(log[from..i]))
  }

  ghost predicate AcksUpTo(first: Ledger, log: seq<Incoming>, faults: nat -> MessageFault, from: nat, to: nat)
    requires from <= to <= |log|
  {
    forall i :: from <= i < to ==> Acks(Before(first, log, from, i), log[i], faults(i))
  }

  class ScoredConsumer {
    const db: LedgerDb
    var committed: nat

    constructor (db: LedgerDb)
      ensures this.db == db && committed == 0
    {
      this.db, committed := db, 0;
    }

    /** One turn of the loop: apply a valid message, then acknowledge it unless something failed. */
    method HandleMessage(message: Incoming, fault: MessageFault, ghost start: map<AccountId, int>)
      returns (applied: bool, acked: bool)
      requires Sound(start, db.State())
      modifies db
      ensures db.State() == if applied && message.Valid? then Apply(old(db.State()), message.tx) else old(db.State())
      ensures Sound(start, db.State())
      ensures old(db.State()).transactions.Keys <= db.State().transactions.Keys
      ensures acked ==> applied && (message.Valid? ==> message.tx.raw.id in db.State().transactions)
      ensures acked <==> Acks(old(db.State()), message, fault)
      ensures applied <==> !(message.Valid? && fault.db.FailsBeforeCommit?)
    {
      hide Sound, BalanceOverflows, CheckHolds, Judge;
      if message.Valid? {
        StepSound(start, db.State(), message.tx);
        SwallowsOnlyDuplicates(start, db.State(), message.tx);
        var raised := db.CreateLedger(message.tx, fault.db, fault.widthFirst);
        if raised {
          return !fault.db.FailsBeforeCommit?, false;
        }
      }
      return true, !fault.ackFails;
    }

    /**
     * The consumer loop from the committed offset, until the log ends or a failure breaks it. The
     * offset moves over exactly the messages that raise nothing and whose offset commit works, stops at
     * the first other one, and at most that one message beyond it has been applied.
     */
    method ProcessMessages(log: seq<Incoming>, faults: nat -> MessageFault, ghost start: map<AccountId, int>)
      returns (applied: nat)
      requires committed <= |log| && Sound(start, db.State())
      modifies this, db
      ensures old(committed) <= committed <= applied <= |log| && applied <= committed + 1
      ensures Sound(start, db.State())
      ensures Progress(old(db.State()), log, old(committed), committed, applied, db.State())
      ensures AcksUpTo(old(db.State()), log, faults, old(committed), committed)
      ensures committed < |log| ==>
                !Acks(Before(old(db.State()), log, old(committed), committed), log[committed], faults(committed))
    {
      hide Sound, Acks, Apply, Replay, Before, Progress, Payloads;
      var position := committed;
      applied := committed;
      ghost var first := db.State();
      ProgressStart(first, log, position);
      while position < |log|
        invariant old(committed) <= committed == position == applied <= |log|
        invariant Sound(start, db.State())
        invariant Progress(first, log, old(committed), position, position, db.State())
        invariant AcksUpTo(first, log, faults, old(committed), position)
      {
        ghost var before := db.State();
        ProgressIsBefore(first, log, old(committed), position, before);
        var done, acked := HandleMessage(log[position], faults(position), start);
        ProgressNext(first, log, old(committed), position, done, acked, before, db.State());
        applied := if done then position + 1 else position;
        if !acked {
          return;
        }
        position := position + 1;
        committed := position;
      }
    }
  }

  /**
   * The messages from `from` up to `applied` are applied, and the valid ones up to `acked`, the
   * committed offset, are recorded.
   */
  ghost predicate Progress(
    first: Ledger, log: seq<Incoming>, from: nat, acked: nat, applied: nat, now: Ledger)
    requires from <= acked <= applied <= |log|
  {
    && now == Replay(first, Payloads(log[from..applied]))
    && RecordedUpTo(log, from, acked, now)
  }

  lemma ProgressStart(first: Ledger, log: seq<Incoming>, from: nat)
    requires from <= |log|
    ensures Progress(first, log, from, from, from, first)
  {
  }

  lemma ProgressIsBefore(first: Ledger, log: seq<Incoming>, from: nat, i: nat, now: Ledger)
    requires from <= i <= |log| && Progress(first, log, from, i, i, now)
    ensures now == Before(first, log, from, i)
  {
  }

  ghost predicate RecordedUpTo(log: seq<Incoming>, from: nat, to: nat, now: Ledger)
    requires to <= |log|
  {
    forall i :: from <= i < to && log[i].Valid? ==> log[i].tx.raw.id in now.transactions
  }

  lemma ProgressNext(
    first: Ledger, log: seq<Incoming>, from: nat, i: nat, done: bool, acked: bool,
    before: Ledger, now: Ledger)
    requires from <= i < |log| && Progress(first, log, from, i, i, before)
    requires now == if done && log[i].Valid? then Apply(before, log[i].tx) else before
    requires before.transactions.Keys <= now.transactions.Keys
    requires acked ==> done && (log[i].Valid? ==> log[i].tx.raw.id in now.transactions)
    ensures Progress(first, log, from, if acked then i + 1 else i, if done then i + 1 else i, now)
  {
    ReplayNext(first, log, from, i);
    RecordedStays(log, from, i, before, now);
  }

  lemma RecordedStays(log: seq<Incoming>, from: nat, i: nat, before: Ledger, now: Ledger)
    requires i <= |log| && before.transactions.Keys <= now.transactions.Keys && RecordedUpTo(log, from, i, before)
    ensures RecordedUpTo(log, from, i, now)
  {
    assert forall x :: x in before.transactions ==> x in now.transactions.Keys;
  }

  lemma ReplayNext(l: Ledger, log: seq<Incoming>, from: nat, i: nat)
    requires from <= i < |log|
    ensures var before := Replay(l, Payloads(log[from..i]));
            Replay(l, Payloads(log[from..i + 1])) ==
            if log[i].Valid? then Apply(before, log[i].tx) else before
  {
    PayloadsNext(log, from, i);
    if log[i].Valid? {
      ReplayAppend(l, Payloads(log[from..i]), log[i].tx);
    }
  }

  lemma PayloadsNext(log: seq<Incoming>, from: nat, i: nat)
    requires from <= i < |log|
    ensures var before := Payloads(log[from..i]);
            Payloads(log[from..i + 1]) == if log[i].Valid? then before + [log[i].tx] else before
  {
    assert log[from..i + 1][..i - from] == log[from..i];
  }
}
