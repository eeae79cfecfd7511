/**
 * The ledger database and one `create_ledger` call as a single transaction on it
 * (services/ledger/main.py, services/ledger/db_models.py).
 */
module Ledger {
  import opened Common

  /** The only account the balance CHECK exempts. */
  const MASTER_ACCOUNT: AccountId := 0

  datatype Direction = Credit | Debit

  datatype Entry = Entry(tx: TxId, account: AccountId, direction: Direction, amount: Cents)

  datatype Ledger = Ledger(
    balances: map<AccountId, int>,
    transactions: map<TxId, TxStatus>,
    entries: seq<Entry>,
    outbox: seq<OutboxRow<Settled>>)

  datatype Verdict = Verdict(status: TxStatus, reason: Option<Reason>)

  function Fresh(balances: map<AccountId, int>): Ledger {
    Ledger(balances, map[], [], [])
  }

  /** Two rows come back only for two distinct, existing accounts. */
  predicate BothFound(balances: map<AccountId, int>, tx: RawTx) {
    tx.sender in balances && tx.receiver in balances && tx.sender != tx.receiver
  }

  function Judge(balances: map<AccountId, int>, tx: ScoredTx): Verdict {
    match tx.decision
    case DecisionRejected => Verdict(Rejected, Some(RejectedFraud))
    case DecisionFlagged => Verdict(Blocked, Some(BlockedSuspicious))
    case DecisionApproved =>
      if !BothFound(balances, tx.raw) then Verdict(Rejected, Some(AccountMissing))
      else if balances[tx.raw.sender] < tx.raw.amount then Verdict(Rejected, Some(InsufficientFunds))
      else Verdict(Completed, None)
  }

  /** The absolute balances a completed transfer writes. */
  function Transfer(balances: map<AccountId, int>, tx: RawTx): map<AccountId, int>
    requires BothFound(balances, tx)
  {
    balances[tx.sender := balances[tx.sender] - tx.amount][tx.receiver := balances[tx.receiver] + tx.amount]
  }

  function EventOf(tx: RawTx, v: Verdict): Settled {
    Settled(tx.sender, tx.id, tx.amount, v.status, v.reason)
  }

  function Postings(tx: RawTx): seq<Entry> {
    [Entry(tx.id, tx.sender, Debit, tx.amount), Entry(tx.id, tx.receiver, Credit, tx.amount)]
  }

  predicate CheckHolds(account: AccountId, balance: int) {
    balance >= 0 || account == MASTER_ACCOUNT
  }

  /** The call would move money, and a new balance does not fit its column. */
  predicate BalanceOverflows(balances: map<AccountId, int>, tx: ScoredTx) {
    && Judge(balances, tx).status.Completed?
    && (var b := Transfer(balances, tx.raw); b[tx.raw.sender] > BIGINT_MAX || b[tx.raw.receiver] > BIGINT_MAX)
  }

  /** What one session ends in. Both faults leave the database as it was; only `WidthFault` is raised. */
  datatype Outcome = Committed(ledger: Ledger) | IntegrityFault | WidthFault

  function Record(l: Ledger, tx: RawTx, v: Verdict): Ledger {
    l.(transactions := l.transactions[tx.id := v.status],
       outbox := l.outbox + [OutboxRow(EventOf(tx, v), Unsent)])
  }

  function Attempt(l: Ledger, tx: ScoredTx): Outcome {
    var v := Judge(l.balances, tx);
    if tx.raw.id in l.transactions then IntegrityFault
    else if !v.status.Completed? then Committed(Record(l, tx.raw, v))
    else
      var b := Transfer(l.balances, tx.raw);
      if !CheckHolds(tx.raw.sender, b[tx.raw.sender]) || !CheckHolds(tx.raw.receiver, b[tx.raw.receiver])
      then IntegrityFault
      else if tx.raw.amount > INT_MAX || BalanceOverflows(l.balances, tx) then WidthFault
      else Committed(Record(l, tx.raw, v).(balances := b, entries := l.entries + Postings(tx.raw)))
  }

  /**
   * The call raises although the database works. When one flush meets both a duplicate and a balance
   * that does not fit, `widthFirst` says which of the two it reports.
   */
  predicate Raises(l: Ledger, tx: ScoredTx, widthFirst: bool) {
    Attempt(l, tx) == WidthFault || (widthFirst && BalanceOverflows(l.balances, tx))
  }

  function Apply(l: Ledger, tx: ScoredTx): Ledger {
    match Attempt(l, tx)
    case Committed(l') => l'
    case _ => l
  }

  function Replay(l: Ledger, txs: seq<ScoredTx>): Ledger
    decreases |txs|
  {
    if txs == [] then l else Replay(Apply(l, txs[0]), txs[1..])
  }

  lemma {:induction false} ReplayAppend(l: Ledger, txs: seq<ScoredTx>, tx: ScoredTx)
    ensures Replay(l, txs + [tx]) == Apply(Replay(l, txs), tx)
    decreases |txs|
  {
    if txs == [] {
      assert txs + [tx] == [tx] && ([tx])[1..] == [];
    } else {
      assert (txs + [tx])[1..] == txs[1..] + [tx];
      ReplayAppend(Apply(l, txs[0]), txs[1..], tx);
    }
  }
}

/** What every sequence of `create_ledger` calls keeps. */
module LedgerInvariants {
  import opened Common
  import opened Ledger

  // ---------------------------------------------------------------------------------------------
  // Sums over accounts and over entries
  // ---------------------------------------------------------------------------------------------

  ghost function Sum(b: map<AccountId, int>): int
    decreases |b|
  {
    if b == map[] then 0 else var k :| k in b; b[k] + Sum(b - {k})
  }

  lemma {:induction false} SumPick(b: map<AccountId, int>, k: AccountId)
    requires k in b
    ensures Sum(b) == b[k] + Sum(b - {k})
    decreases |b|
  {
    var j :| j in b && Sum(b) == b[j] + Sum(b - {j});
    if j != k {
      SumPick(b - {j}, k);
      SumPick(b - {k}, j);
      assert b - {j} - {k} == b - {k} - {j};
    }
  }

  lemma SumUpdate(b: map<AccountId, int>, k: AccountId, v: int)
    requires k in b
    ensures Sum(b[k := v]) == Sum(b) - b[k] + v
  {
    SumPick(b, k);
    SumPick(b[k := v], k);
    assert b[k := v] - {k} == b - {k};
  }

  /** The positive part of every balance. */
  ghost function Positive(b: map<AccountId, int>): map<AccountId, int> {
    map a | a in b :: if b[a] > 0 then b[a] else 0
  }

  lemma {:induction false} SumCovers(b: map<AccountId, int>, k: AccountId)
    requires k in b && forall a :: a in b ==> b[a] >= 0
    ensures b[k] <= Sum(b)
  {
    SumPick(b, k);
    SumNonNegative(b - {k});
  }

  lemma {:induction false} SumNonNegative(b: map<AccountId, int>)
    requires forall a :: a in b ==> b[a] >= 0
    ensures Sum(b) >= 0
    decreases |b|
  {
    if b != map[] {
      var k :| k in b && Sum(b) == b[k] + Sum(b - {k});
      SumNonNegative(b - {k});
    }
  }

  function Signed(e: Entry): int {
    if e.direction.Credit? then e.amount else 0 - e.amount
  }

  /** Credits minus debits booked on one account. */
  function Net(es: seq<Entry>, a: AccountId): int {
    if es == [] then 0
    else
      var e := es[|es| - 1];
      Net(es[..|es| - 1], a) + if e.account == a then Signed(e) else 0
  }

  /** The total booked in one direction. */
  function Booked(es: seq<Entry>, d: Direction): int {
    if es == [] then 0
    else
      var e := es[|es| - 1];
      Booked(es[..|es| - 1], d) + if e.direction == d then e.amount else 0
  }

  lemma PostingsNet(es: seq<Entry>, tx: RawTx, a: AccountId)
    ensures Net(es + Postings(tx), a)
            == Net(es, a) + (if tx.sender == a then 0 - tx.amount else 0) + (if tx.receiver == a then tx.amount else 0)
    ensures forall d :: Booked(es + Postings(tx), d) == Booked(es, d) + tx.amount
  {
    var p := Postings(tx);
    var all := es + p;
    assert all[..|all| - 1] == es + [p[0]];
    assert (es + [p[0]])[..|es|] == es;
  }

  // ---------------------------------------------------------------------------------------------
  // The invariants
  // ---------------------------------------------------------------------------------------------

  /** Each balance is its start plus credits minus debits; debits equal credits; the sum is constant. */
  ghost predicate BooksAgree(start: map<AccountId, int>, l: Ledger) {
    && l.balances.Keys == start.Keys
    && (forall a :: a in start ==> l.balances[a] == start[a] + Net(l.entries, a))
    && Booked(l.entries, Debit) == Booked(l.entries, Credit)
    && Sum(l.balances) == Sum(start)
  }

  function Min(a: int, b: int): int {
    if a <= b then a else b
  }

  /** No balance falls below min(0, start); the positive money never grows; the CHECK holds. */
  ghost predicate BalancesBounded(start: map<AccountId, int>, l: Ledger) {
    && l.balances.Keys == start.Keys
    && (forall a :: a in start ==> Min(0, start[a]) <= l.balances[a])
    && (forall a :: a in start ==> CheckHolds(a, l.balances[a]))
    && Sum(Positive(l.balances)) <= Sum(Positive(start))
  }

  /** Row `i` of the outbox is the one event of transaction `x`. */
  ghost predicate EventAt(l: Ledger, x: TxId, i: int) {
    0 <= i < |l.outbox| && l.outbox[i].event.tx == x
  }

  predicate ReasonMatches(status: TxStatus, reason: Option<Reason>) {
    || (status == Completed && reason == None)
    || (status == Blocked && reason == Some(BlockedSuspicious))
    || (status == Rejected && reason.Some? && !reason.value.BlockedSuspicious?)
  }

  /** Every transaction has exactly one outbox row, carrying its status and a matching reason. */
  ghost predicate OneEventEach(l: Ledger) {
    && (forall x :: x in l.transactions ==> exists i :: EventAt(l, x, i))
    && (forall i :: 0 <= i < |l.outbox| ==>
          var e := l.outbox[i].event;
          && e.tx in l.transactions && l.transactions[e.tx] == e.status && ReasonMatches(e.status, e.reason))
    && (forall i, j :: 0 <= i < j < |l.outbox| ==> l.outbox[i].event.tx != l.outbox[j].event.tx)
  }

  /** Entries `i` and `i + 1` are the debit and the credit of `x`, on distinct accounts. */
  ghost predicate PairAt(l: Ledger, x: TxId, i: int) {
    && 0 <= i < |l.entries| - 1
    && (var d, c := l.entries[i], l.entries[i + 1];
        && d.tx == x && c.tx == x && d.direction == Debit && c.direction == Credit
        && d.amount == c.amount && d.account != c.account)
    && forall j :: 0 <= j < |l.entries| && l.entries[j].tx == x ==> j == i || j == i + 1
  }

  /** A completed transaction has exactly one debit and one credit, any other transaction none. */
  ghost predicate PairedEntries(l: Ledger) {
    && (forall x :: x in l.transactions && l.transactions[x].Completed? ==> exists i :: PairAt(l, x, i))
    && (forall i :: 0 <= i < |l.entries| ==>
          l.entries[i].tx in l.transactions && l.transactions[l.entries[i].tx].Completed?)
  }

  /** The amounts of the entries are the amount of the event. */
  ghost predicate AmountsMatch(l: Ledger) {
    forall i, j :: 0 <= i < |l.entries| && 0 <= j < |l.outbox| && l.entries[i].tx == l.outbox[j].event.tx ==>
      && l.entries[i].amount == l.outbox[j].event.amount
      && (l.entries[i].direction.Debit? ==> l.entries[i].account == l.outbox[j].event.sender)
  }

  ghost predicate Sound(start: map<AccountId, int>, l: Ledger) {
    && BooksAgree(start, l)
    && BalancesBounded(start, l)
    && OneEventEach(l)
    && PairedEntries(l)
    && AmountsMatch(l)
  }

  /** Starting balances the schema accepts. */
  predicate Startable(start: map<AccountId, int>) {
    forall a :: a in start ==> CheckHolds(a, start[a])
  }

  // ---------------------------------------------------------------------------------------------
  // One call
  // ---------------------------------------------------------------------------------------------

  lemma StepBooks(start: map<AccountId, int>, l: Ledger, tx: ScoredTx)
    requires BooksAgree(start, l)
    ensures BooksAgree(start, Apply(l, tx))
  {
    hide Sum, BalancesBounded;
    var l' := Apply(l, tx);
    if l'.entries != l.entries {
      var t := tx.raw;
      TransferSum(l.balances, t);
      forall a | a in start ensures l'.balances[a] == start[a] + Net(l'.entries, a) {
        PostingsNet(l.entries, t, a);
      }
      assert forall d :: Booked(l'.entries, d) == Booked(l.entries, d) + t.amount by {
        PostingsNet(l.entries, t, t.sender);
      }
    }
  }

  lemma TransferSum(b: map<AccountId, int>, t: RawTx)
    requires BothFound(b, t)
    ensures Sum(Transfer(b, t)) == Sum(b)
  {
    SumUpdate(b, t.sender, b[t.sender] - t.amount);
    SumUpdate(b[t.sender := b[t.sender] - t.amount], t.receiver, b[t.receiver] + t.amount);
  }

  lemma TransferBounds(b: map<AccountId, int>, t: RawTx)
    requires BothFound(b, t) && t.amount <= b[t.sender]
    ensures Sum(Positive(Transfer(b, t))) <= Sum(Positive(b))
  {
    hide Sum;
    var p := Positive(b);
    var low := p[t.sender := b[t.sender] - t.amount];
    var gain := if b[t.receiver] + t.amount > 0 then b[t.receiver] + t.amount else 0;
    SumUpdate(p, t.sender, b[t.sender] - t.amount);
    SumUpdate(low, t.receiver, gain);
    assert Positive(Transfer(b, t)) == low[t.receiver := gain];
  }

  lemma StepBounds(start: map<AccountId, int>, l: Ledger, tx: ScoredTx)
    requires BalancesBounded(start, l)
    ensures BalancesBounded(start, Apply(l, tx))
  {
    hide Sum, Net, Booked, Positive;
    var l' := Apply(l, tx);
    if l'.balances != l.balances {
      TransferBounds(l.balances, tx.raw);
    }
  }

  lemma StepEvents(l: Ledger, tx: ScoredTx)
    requires OneEventEach(l)
    ensures OneEventEach(Apply(l, tx))
  {
    var l' := Apply(l, tx);
    if l' != l {
      EventsGrow(l, l', OutboxRow(EventOf(tx.raw, Judge(l.balances, tx)), Unsent));
    }
  }

  /** Recording a new transaction with its one row. */
  lemma EventsGrow(l: Ledger, l': Ledger, row: OutboxRow<Settled>)
    requires OneEventEach(l) && l'.outbox == l.outbox + [row] && row.event.tx !in l.transactions
    requires l'.transactions == l.transactions[row.event.tx := row.event.status]
    requires ReasonMatches(row.event.status, row.event.reason)
    ensures OneEventEach(l')
  {
    forall x | x in l'.transactions ensures exists i :: EventAt(l', x, i) {
      EventFound(l, l', row, x);
    }
  }

  lemma EventFound(l: Ledger, l': Ledger, row: OutboxRow<Settled>, x: TxId)
    requires l'.outbox == l.outbox + [row] && (x == row.event.tx || exists i :: EventAt(l, x, i))
    ensures exists i :: EventAt(l', x, i)
  {
    if x == row.event.tx {
      assert EventAt(l', x, |l.outbox|);
    } else {
      var i :| EventAt(l, x, i);
      assert EventAt(l', x, i);
    }
  }

  lemma StepPairs(l: Ledger, tx: ScoredTx)
    requires PairedEntries(l)
    ensures PairedEntries(Apply(l, tx))
  {
    var l' := Apply(l, tx);
    if l' != l {
      forall x | x in l'.transactions && l'.transactions[x].Completed? ensures exists i :: PairAt(l', x, i) {
        if x in l.transactions {
          var i :| PairAt(l, x, i);
          assert PairAt(l', x, i);
        } else {
          assert PairAt(l', x, |l.entries|);
        }
      }
    }
  }

  lemma StepAmounts(l: Ledger, tx: ScoredTx)
    requires OneEventEach(l) && PairedEntries(l) && AmountsMatch(l)
    ensures AmountsMatch(Apply(l, tx))
  {
  }

  lemma StepSound(start: map<AccountId, int>, l: Ledger, tx: ScoredTx)
    requires Sound(start, l)
    ensures Sound(start, Apply(l, tx))
  {
    hide Apply, BooksAgree, BalancesBounded, OneEventEach, PairedEntries, AmountsMatch;
    StepBooks(start, l, tx);
    StepBounds(start, l, tx);
    StepEvents(l, tx);
    StepPairs(l, tx);
    StepAmounts(l, tx);
  }

  /** Every ledger reached from starting balances by any messages keeps all of the above. */
  lemma {:induction false} ReplaySound(start: map<AccountId, int>, l: Ledger, txs: seq<ScoredTx>)
    requires Sound(start, l)
    ensures Sound(start, Replay(l, txs))
    decreases |txs|
  {
    hide Apply, Sound;
    if txs != [] {
      StepSound(start, l, txs[0]);
      ReplaySound(start, Apply(l, txs[0]), txs[1..]);
    }
  }

  lemma FreshSound(start: map<AccountId, int>)
    requires Startable(start)
    ensures Sound(start, Fresh(start))
  {
  }

  /** A reached balance never exceeds the sum of the positive starting balances. */
  lemma BalanceCeiling(start: map<AccountId, int>, l: Ledger, a: AccountId)
    requires BalancesBounded(start, l) && a in start
    ensures l.balances[a] <= Sum(Positive(start))
  {
    SumCovers(Positive(l.balances), a);
  }

  /**
   * When the positive starting money fits a BIGINT, a call raises exactly when a new transfer that
   * would complete is too large for the entry column; no balance update ever overflows.
   */
  lemma RaisesExactly(start: map<AccountId, int>, l: Ledger, tx: ScoredTx)
    requires Sound(start, l) && Sum(Positive(start)) <= 9_223_372_036_854_775_807
    ensures Attempt(l, tx) == WidthFault <==>
            && tx.raw.id !in l.transactions
            && Judge(l.balances, tx).status.Completed?
            && tx.raw.amount > 2_147_483_647
    ensures forall widthFirst :: Raises(l, tx, widthFirst) <==> Attempt(l, tx) == WidthFault
    ensures forall a :: a in l.balances ==> l.balances[a] <= BIGINT_MAX
  {
    hide Sum, BooksAgree, OneEventEach, PairedEntries, AmountsMatch;
    forall a | a in l.balances ensures l.balances[a] <= BIGINT_MAX {
      BalanceCeiling(start, l, a);
    }
    if Judge(l.balances, tx).status.Completed? {
      var b := Transfer(l.balances, tx.raw);
      TransferBounds(l.balances, tx.raw);
      SumCovers(Positive(b), tx.raw.receiver);
      SumCovers(Positive(b), tx.raw.sender);
    }
  }

  /** A concrete call that raises: both accounts and the money are there, the entry column is too narrow. */
  lemma OversizedTransferRaises(tx: ScoredTx)
    requires tx.decision == DecisionApproved && tx.raw.sender == 1 && tx.raw.receiver == 2
    requires tx.raw.amount == 2_500_000_000
    ensures var start: map<AccountId, int> := map[1 := 3_000_000_000, 2 := 0];
            && Sound(start, Fresh(start)) && Judge(start, tx).status == Completed
            && Attempt(Fresh(start), tx) == WidthFault
  {
    FreshSound(map[1 := 3_000_000_000, 2 := 0]);
  }

  /** The swallowed IntegrityError only ever hides a duplicate: what did not raise is recorded. */
  lemma SwallowsOnlyDuplicates(start: map<AccountId, int>, l: Ledger, tx: ScoredTx)
    requires Sound(start, l)
    ensures Attempt(l, tx) == IntegrityFault <==> tx.raw.id in l.transactions
    ensures Attempt(l, tx) != WidthFault <==> tx.raw.id in Apply(l, tx).transactions
  {
    hide Sum, BooksAgree, OneEventEach, PairedEntries, AmountsMatch;
  }

  /** Redelivery is harmless, whatever decision or funds branch the duplicate would take now. */
  lemma DuplicateChangesNothing(l: Ledger, tx: ScoredTx)
    requires tx.raw.id in l.transactions
    ensures Apply(l, tx) == l
  {
  }

  /** Drop every message whose transaction id is recorded by the time it is handled. */
  function WithoutReplays(l: Ledger, txs: seq<ScoredTx>): seq<ScoredTx>
    decreases |txs|
  {
    if txs == [] then []
    else if txs[0].raw.id in l.transactions then WithoutReplays(l, txs[1..])
    else [txs[0]] + WithoutReplays(Apply(l, txs[0]), txs[1..])
  }

  lemma {:induction false} ReplayIsIdempotent(l: Ledger, txs: seq<ScoredTx>)
    ensures Replay(l, WithoutReplays(l, txs)) == Replay(l, txs)
    decreases |txs|
  {
    if txs != [] {
      if txs[0].raw.id in l.transactions {
        ReplayIsIdempotent(l, txs[1..]);
      } else {
        var kept := WithoutReplays(Apply(l, txs[0]), txs[1..]);
        assert ([txs[0]] + kept)[1..] == kept;
        ReplayIsIdempotent(Apply(l, txs[0]), txs[1..]);
      }
    }
  }

  /** Keep only the first message of each id: no look at the ledger at all. */
  function FirstOfEachId(txs: seq<ScoredTx>, seen: set<TxId>): seq<ScoredTx> {
    if txs == [] then []
    else if txs[0].raw.id in seen then FirstOfEachId(txs[1..], seen)
    else [txs[0]] + FirstOfEachId(txs[1..], seen + {txs[0].raw.id})
  }

  /** Every call of the replay returns normally, that is, leaves its transaction recorded. */
  predicate AllRecorded(l: Ledger, txs: seq<ScoredTx>)
    decreases |txs|
  {
    txs == [] || (txs[0].raw.id in Apply(l, txs[0]).transactions && AllRecorded(Apply(l, txs[0]), txs[1..]))
  }

  /** When no call raises, only the first message of each id matters. */
  lemma {:induction false} OnlyFirstMessagesMatter(l: Ledger, txs: seq<ScoredTx>)
    requires AllRecorded(l, txs)
    ensures Replay(l, FirstOfEachId(txs, l.transactions.Keys)) == Replay(l, txs)
    decreases |txs|
  {
    if txs != [] {
      var l' := Apply(l, txs[0]);
      assert l'.transactions.Keys == l.transactions.Keys + {txs[0].raw.id};
      OnlyFirstMessagesMatter(l', txs[1..]);
      if txs[0].raw.id !in l.transactions {
        var kept := FirstOfEachId(txs[1..], l'.transactions.Keys);
        assert ([txs[0]] + kept)[1..] == kept;
      }
    }
  }

  lemma {:induction false} AllRecordedAppend(l: Ledger, txs: seq<ScoredTx>, tx: ScoredTx)
    requires AllRecorded(l, txs) && tx.raw.id in Apply(Replay(l, txs), tx).transactions
    ensures AllRecorded(l, txs + [tx])
    decreases |txs|
  {
    if txs == [] {
      assert txs + [tx] == [tx] && ([tx])[1..] == [];
    } else {
      assert (txs + [tx])[1..] == txs[1..] + [tx];
      AllRecordedAppend(Apply(l, txs[0]), txs[1..], tx);
    }
  }

  lemma {:induction false} RecordedStays(l: Ledger, txs: seq<ScoredTx>, x: TxId)
    requires x in l.transactions
    ensures x in Replay(l, txs).transactions && Replay(l, txs).transactions[x] == l.transactions[x]
    decreases |txs|
  {
    if txs != [] {
      RecordedStays(Apply(l, txs[0]), txs[1..], x);
    }
  }

  lemma {:induction false} AllRecordedMeans(l: Ledger, txs: seq<ScoredTx>, i: nat)
    requires AllRecorded(l, txs) && i < |txs|
    ensures txs[i].raw.id in Replay(l, txs).transactions
    decreases |txs|
  {
    if i == 0 {
      RecordedStays(Apply(l, txs[0]), txs[1..], txs[0].raw.id);
    } else {
      AllRecordedMeans(Apply(l, txs[0]), txs[1..], i - 1);
    }
  }

  /** Only an approved transfer writes its amount to an entry row. */
  predicate FitsColumns(tx: ScoredTx) {
    tx.decision.DecisionApproved? ==> tx.raw.amount <= INT_MAX
  }

  /** When the positive money fits BIGINT and approved amounts fit INTEGER, no call ever raises. */
  lemma {:induction false} FittingMessagesAreRecorded(start: map<AccountId, int>, l: Ledger, txs: seq<ScoredTx>)
    requires Sound(start, l) && Sum(Positive(start)) <= BIGINT_MAX
    requires forall i :: 0 <= i < |txs| ==> FitsColumns(txs[i])
    ensures AllRecorded(l, txs)
    decreases |txs|
  {
    hide Sound, Sum, Positive, Apply, Attempt, Raises;
    if txs != [] {
      StepSound(start, l, txs[0]);
      RaisesExactly(start, l, txs[0]);
      SwallowsOnlyDuplicates(start, l, txs[0]);
      FittingMessagesAreRecorded(start, Apply(l, txs[0]), txs[1..]);
    }
  }

  /** A recorded verdict is never changed by a later call. */
  lemma VerdictsAreFinal(l: Ledger, tx: ScoredTx, x: TxId)
    requires x in l.transactions
    ensures x in Apply(l, tx).transactions && Apply(l, tx).transactions[x] == l.transactions[x]
  {
  }

  /** A transfer to oneself is never completed. */
  lemma SelfTransferNeverCompletes(l: Ledger, tx: ScoredTx)
    requires tx.raw.sender == tx.raw.receiver && tx.raw.id !in l.transactions
    ensures tx.raw.id in Apply(l, tx).transactions && !Apply(l, tx).transactions[tx.raw.id].Completed?
    ensures Apply(l, tx).balances == l.balances && Apply(l, tx).entries == l.entries
  {
  }
}
