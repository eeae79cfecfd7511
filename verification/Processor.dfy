/**
 * The two consumer loops of services/processor/main.py over one velocity store. They run concurrently:
 * whatever else touches the windows between two turns of a loop - the other loop, or another instance -
 * is a parameter of it.
 */
module Processor {
  import opened Common
  import opened FraudScorer
  import SlidingWindow
  import VelocityStore

  /** What fails while one raw message is handled. */
  datatype RawFault = RawFault(redis: RedisFault, sendFails: bool, delivered: bool, ackFails: bool)

  datatype SettledFault = SettledFault(redis: RedisFault, ackFails: bool)

  // ---------------------------------------------------------------------------------------------
  // What others do to the windows
  // ---------------------------------------------------------------------------------------------

  type Logs = map<AccountId, seq<SlidingWindow.Event>>

  datatype Access =
    | Scoring(tx: RawTx, at: nat)
    | Refund(account: AccountId, id: TxId, amount: Cents)

  function LogOf(logs: Logs, account: AccountId): seq<SlidingWindow.Event> {
    if account in logs then logs[account] else []
  }

  function Record(logs: Logs, account: AccountId, e: SlidingWindow.Event): Logs {
    logs[account := LogOf(logs, account) + [e]]
  }

  function Touch(logs: Logs, a: Access): Logs {
    match a
    case Scoring(tx, at) => Record(logs, tx.sender, SlidingWindow.Added(tx.id, tx.amount, at))
    case Refund(account, id, amount) => Record(logs, account, SlidingWindow.RolledBack(id, amount))
  }

  function TouchAll(logs: Logs, accesses: seq<Access>): Logs
    decreases |accesses|
  {
    if accesses == [] then logs else TouchAll(Touch(logs, accesses[0]), accesses[1..])
  }

  /** The accesses happen in time order, from `from` on and up to `to`. */
  predicate Timely(accesses: seq<Access>, from: nat, to: nat)
    decreases |accesses|
  {
    if accesses == [] then from <= to
    else if accesses[0].Scoring? then from <= accesses[0].at && Timely(accesses[1..], accesses[0].at, to)
    else Timely(accesses[1..], from, to)
  }

  /** One shared clock: gap `i` lies between the instants `i` and `i + 1`. */
  predicate GapOnTime(others: nat -> seq<Access>, clock: nat -> nat, i: nat) {
    Timely(others(i), clock(i), clock(i + 1))
  }

  ghost predicate OnTime(others: nat -> seq<Access>, clock: nat -> nat) {
    forall i: nat :: GapOnTime(others, clock, i)
  }

  /** The other users of the store take their turns. */
  method Meanwhile(store: VelocityStore.Store, accesses: seq<Access>, ghost from: nat, ghost to: nat)
    requires store.Valid() && store.clock <= from && Timely(accesses, from, to)
    modifies store
    ensures store.Valid() && store.clock <= to
    ensures store.log == TouchAll(old(store.log), accesses)
  {
    ghost var t := from;
    var rest := accesses;
    while rest != []
      invariant store.Valid() && store.clock <= t && Timely(rest, t, to)
      invariant TouchAll(store.log, rest) == TouchAll(old(store.log), accesses)
      decreases |rest|
    {
      match rest[0] {
        case Scoring(tx, at) =>
          var total := store.CheckAndUpdateVelocity(tx.sender, tx.id, tx.amount, at, Works);
          t := at;
        case Refund(account, id, amount) =>
          var raised := store.RollbackVelocity(account, id, amount, Works);
      }
      rest := rest[1..];
    }
    StillOnTime(rest, t, to);
  }

  lemma StillOnTime(accesses: seq<Access>, from: nat, to: nat)
    requires Timely(accesses, from, to)
    ensures from <= to
    decreases |accesses|
  {
    if accesses != [] {
      StillOnTime(accesses[1..], if accesses[0].Scoring? then accesses[0].at else from, to);
    }
  }

  // ---------------------------------------------------------------------------------------------
  // The settled loop as a fold
  // ---------------------------------------------------------------------------------------------

  function RefundTurn(logs: Logs, message: Option<Settled>): Logs {
    if message.Some? && message.value.Refunds()
    then Touch(logs, Refund(message.value.sender, message.value.tx, message.value.amount))
    else logs
  }

  /** A failed turn: nothing happened, or all but the acknowledgement. */
  predicate BrokenRefund(logs: Logs, message: Option<Settled>, logs': Logs) {
    logs' == logs || logs' == RefundTurn(logs, message)
  }

  function RefundTurns(logs: Logs, log: seq<Option<Settled>>, others: nat -> seq<Access>, from: nat, to: nat): Logs
    requires from <= to <= |log|
  {
    if from == to then logs
    else RefundTurn(TouchAll(RefundTurns(logs, log, others, from, to - 1), others(to - 1)), log[to - 1])
  }

  /** The message takes `amount` of transaction `id` back from the account. */
  predicate TakesBack(message: Option<Settled>, account: AccountId, id: TxId, amount: nat) {
    && message.Some? && (message.value.status == Rejected || message.value.status == Blocked)
    && message.value.sender == account && message.value.tx == id && message.value.amount == amount
  }

  predicate OnlyScorings(accesses: seq<Access>) {
    forall k :: 0 <= k < |accesses| ==> accesses[k].Scoring?
  }

  lemma {:induction false} ScoringsTakeNothingBack(
    logs: Logs, accesses: seq<Access>, account: AccountId, id: TxId, amount: nat)
    requires OnlyScorings(accesses)
    ensures var e := SlidingWindow.RolledBack(id, amount);
            e in LogOf(TouchAll(logs, accesses), account) <==> e in LogOf(logs, account)
    decreases |accesses|
  {
    if accesses != [] {
      assert forall k :: 0 <= k < |accesses[1..]| ==> accesses[1..][k] == accesses[k + 1];
      ScoringsTakeNothingBack(Touch(logs, accesses[0]), accesses[1..], account, id, amount);
    }
  }

  /**
   * While the others only score, the loop rolls back exactly the rejected and blocked transactions of the
   * messages it handled, on the sender's account: a completed transaction keeps its velocity.
   */
  lemma {:induction false} OnlyRefusedAreTakenBack(
    logs: Logs, log: seq<Option<Settled>>, others: nat -> seq<Access>, from: nat, to: nat,
    account: AccountId, id: TxId, amount: nat)
    requires from <= to <= |log| && forall i :: from <= i < to ==> OnlyScorings(others(i))
    ensures var e := SlidingWindow.RolledBack(id, amount);
            e in LogOf(RefundTurns(logs, log, others, from, to), account) <==>
            e in LogOf(logs, account) || exists i :: from <= i < to && TakesBack(log[i], account, id, amount)
  {
    hide TouchAll, RefundTurn;
    if from < to {
      OnlyRefusedAreTakenBack(logs, log, others, from, to - 1, account, id, amount);
      var before := RefundTurns(logs, log, others, from, to - 1);
      ScoringsTakeNothingBack(before, others(to - 1), account, id, amount);
      RefundTurnTakesBack(TouchAll(before, others(to - 1)), log[to - 1], account, id, amount);
    }
  }

  lemma RefundTurnTakesBack(logs: Logs, message: Option<Settled>, account: AccountId, id: TxId, amount: nat)
    ensures var e := SlidingWindow.RolledBack(id, amount);
            e in LogOf(RefundTurn(logs, message), account) <==>
            e in LogOf(logs, account) || TakesBack(message, account, id, amount)
  {
  }

  // ---------------------------------------------------------------------------------------------
  // The raw loop as a fold
  // ---------------------------------------------------------------------------------------------

  /** What handling raw messages changes: the window logs and the scored topic. */
  datatype RawState = RawState(logs: Logs, scored: seq<ScoredTx>)
  {
    function After(accesses: seq<Access>): RawState {
      this.(logs := TouchAll(logs, accesses))
    }
  }

  /** The log total that includes `tx`. */
  function TotalWith(st: RawState, tx: RawTx, now: nat, span: nat): nat {
    SlidingWindow.LogTotal(LogOf(st.logs, tx.sender) + [SlidingWindow.Added(tx.id, tx.amount, now)], now, span)
  }

  /** One message handled without a failure. */
  function Turn(st: RawState, message: Option<RawTx>, now: nat, span: nat): RawState {
    match message
    case None => st
    case Some(tx) =>
      var result := Score(tx, TotalWith(st, tx, now, span));
      RawState(Touch(st.logs, Scoring(tx, now)), if result.Evaluated? then st.scored + [result.tx] else st.scored)
  }

  /** A failed turn: nothing happened, only the window was updated, or all but the acknowledgement. */
  predicate BrokenTurn(st: RawState, message: Option<RawTx>, now: nat, span: nat, st': RawState) {
    || st' == st
    || st' == Turn(st, message, now, span).(scored := st.scored)
    || st' == Turn(st, message, now, span)
  }

  /** Gap `i`, then message `i` at the instant `i + 1`. */
  function Turns(
    st: RawState, log: seq<Option<RawTx>>, others: nat -> seq<Access>, clock: nat -> nat, from: nat, to: nat, span: nat)
    : RawState
    requires from <= to <= |log|
  {
    if from == to then st
    else Turn(Turns(st, log, others, clock, from, to - 1, span).After(others(to - 1)), log[to - 1], clock(to), span)
  }

  lemma {:induction false} NewMemberCounts(h: seq<SlidingWindow.Event>, id: TxId, amount: nat, now: nat, span: nat)
    requires 0 < span
    ensures amount <= SlidingWindow.LogTotal(h + [SlidingWindow.Added(id, amount, now)], now, span)
    decreases |h|
  {
    var g := h + [SlidingWindow.Added(id, amount, now)];
    if h == [] {
      assert g[0] == SlidingWindow.Added(id, amount, now) && g[1..] == [];
    } else {
      assert g[1..] == h[1..] + [SlidingWindow.Added(id, amount, now)];
      NewMemberCounts(h[1..], id, amount, now, span);
    }
  }

  /** One new message, with the score and decision of the log total that includes it; none above 1,000,000 cents. */
  predicate PublishesExactly(before: seq<ScoredTx>, after: seq<ScoredTx>, tx: RawTx, total: nat) {
    if tx.amount > 1_000_000 then after == before
    else |after| == |before| + 1 && after[..|before|] == before && ScoredAs(tx, total, after[|before|])
  }

  lemma TurnScores(st: RawState, tx: RawTx, now: nat, span: nat)
    requires 0 < span
    ensures PublishesExactly(st.scored, Turn(st, Some(tx), now, span).scored, tx, TotalWith(st, tx, now, span))
    ensures LogOf(Turn(st, Some(tx), now, span).logs, tx.sender)
            == LogOf(st.logs, tx.sender) + [SlidingWindow.Added(tx.id, tx.amount, now)]
    ensures forall a :: a != tx.sender ==> LogOf(Turn(st, Some(tx), now, span).logs, a) == LogOf(st.logs, a)
  {
    NewMemberCounts(LogOf(st.logs, tx.sender), tx.id, tx.amount, now, span);
    ExactScore(tx, TotalWith(st, tx, now, span));
  }

  /** Scored messages are only appended. */
  lemma {:induction false} TurnsAppend(
    st: RawState, log: seq<Option<RawTx>>, others: nat -> seq<Access>, clock: nat -> nat,
    from: nat, mid: nat, to: nat, span: nat)
    requires from <= mid <= to <= |log|
    ensures Turns(st, log, others, clock, from, mid, span).scored
            <= Turns(st, log, others, clock, from, to, span).scored
  {
    hide TouchAll, SlidingWindow.LogTotal;
    if mid < to {
      TurnsAppend(st, log, others, clock, from, mid, to - 1, span);
    }
  }

  /**
   * What an acknowledged raw message means, whatever others did in between: message `i` is invalid and
   * published nothing, or above 1,000,000 cents and published nothing, or published exactly one message,
   * with the score and decision of the log total at its turn, itself included. It stays published.
   */
  lemma AckedIsScoredExactly(
    st: RawState, log: seq<Option<RawTx>>, others: nat -> seq<Access>, clock: nat -> nat,
    from: nat, to: nat, span: nat, i: nat)
    requires from <= i < to <= |log| && 0 < span
    ensures var before := Turns(st, log, others, clock, from, i, span).After(others(i));
            var after := Turns(st, log, others, clock, from, i + 1, span);
            && (log[i] == None ==> after == before)
            && (log[i].Some? ==>
                  PublishesExactly(before.scored, after.scored, log[i].value,
                                   TotalWith(before, log[i].value, clock(i + 1), span)))
            && after.scored <= Turns(st, log, others, clock, from, to, span).scored
  {
    hide TouchAll, SlidingWindow.LogTotal, PublishesExactly;
    if log[i].Some? {
      TurnScores(Turns(st, log, others, clock, from, i, span).After(others(i)), log[i].value, clock(i + 1), span);
    }
    TurnsAppend(st, log, others, clock, from, i + 1, to, span);
  }

  /** The offset moves over a raw message exactly when nothing it needs fails. */
  predicate RawAcks(message: Option<RawTx>, fault: RawFault) {
    && !fault.ackFails
    && (message.Some? ==> fault.redis.Works? && (message.value.amount > 1_000_000 || !fault.sendFails))
  }

  predicate SettledAcks(message: Option<Settled>, fault: SettledFault) {
    && !fault.ackFails
    && (message.Some? && (message.value.status == Rejected || message.value.status == Blocked) ==> fault.redis.Works?)
  }

  class FraudProcessor {
    const store: VelocityStore.Store
    var scored: seq<ScoredTx>
    var rawCommitted: nat
    var settledCommitted: nat

    constructor (store: VelocityStore.Store)
      ensures this.store == store && scored == [] && rawCommitted == 0 && settledCommitted == 0
    {
      this.store := store;
      scored, rawCommitted, settledCommitted := [], 0, 0;
    }

    ghost function RawView(): RawState
      reads this, store
    {
      RawState(store.log, scored)
    }

    /** Score one valid message, then publish the result. */
    method ScoreAndPublish(tx: RawTx, now: nat, fault: RawFault) returns (done: bool)
      requires store.Valid() && store.clock <= now
      modifies store, this`scored
      ensures store.Valid() && store.clock <= now
      ensures done ==> RawView() == Turn(old(RawView()), Some(tx), now, store.span)
      ensures !done ==> BrokenTurn(old(RawView()), Some(tx), now, store.span, RawView())
      ensures done <==> fault.redis.Works? && (tx.amount > 1_000_000 || !fault.sendFails)
    {
      var result := EvaluateFraud(store, tx, now, fault.redis);
      if result.StoreFailed? {
        return false;
      }
      if result.Evaluated? {
        if !fault.sendFails || fault.delivered {
          scored := scored + [result.tx];
        }
        if fault.sendFails {
          return false;
        }
      }
      done := true;
    }

    method HandleRaw(message: Option<RawTx>, now: nat, fault: RawFault) returns (acked: bool)
      requires store.Valid() && store.clock <= now
      modifies store, this`scored
      ensures store.Valid() && store.clock <= now
      ensures acked ==> RawView() == Turn(old(RawView()), message, now, store.span)
      ensures !acked ==> BrokenTurn(old(RawView()), message, now, store.span, RawView())
      ensures acked <==> RawAcks(message, fault)
    {
      if message.Some? {
        var done := ScoreAndPublish(message.value, now, fault);
        if !done {
          return false;
        }
      }
      return !fault.ackFails;
    }

    /** What others do in the gap, then one turn. */
    method RawTurn(
      message: Option<RawTx>, accesses: seq<Access>, ghost from: nat, now: nat, fault: RawFault)
      returns (acked: bool)
      requires store.Valid() && store.clock <= from && Timely(accesses, from, now)
      modifies store, this`scored
      ensures store.Valid() && store.clock <= now
      ensures acked ==> RawView() == Turn(old(RawView()).After(accesses), message, now, store.span)
      ensures !acked ==> BrokenTurn(old(RawView()).After(accesses), message, now, store.span, RawView())
      ensures acked <==> RawAcks(message, fault)
    {
      Meanwhile(store, accesses, from, now);
      acked := HandleRaw(message, now, fault);
    }

    /**
     * `process_raw_transaction`: up to the committed offset every message had its full turn, in
     * order; the message at the offset, if a failure broke the loop there, at most a broken one.
     */
    method ProcessRawTransactions(
      log: seq<Option<RawTx>>, others: nat -> seq<Access>, clock: nat -> nat, faults: nat -> RawFault)
      requires rawCommitted <= |log| && store.Valid()
      requires store.clock <= clock(rawCommitted) && OnTime(others, clock)
      modifies this`scored, this`rawCommitted, store
      ensures store.Valid() && old(rawCommitted) <= rawCommitted <= |log|
      ensures rawCommitted == |log| ==>
                RawView() == Turns(old(RawView()), log, others, clock, old(rawCommitted), rawCommitted, store.span)
      ensures rawCommitted < |log| ==>
                var full := Turns(old(RawView()), log, others, clock, old(rawCommitted), rawCommitted, store.span);
                BrokenTurn(full.After(others(rawCommitted)), log[rawCommitted], clock(rawCommitted + 1),
                           store.span, RawView())
      ensures forall i :: old(rawCommitted) <= i < rawCommitted ==> RawAcks(log[i], faults(i))
      ensures rawCommitted < |log| ==> !RawAcks(log[rawCommitted], faults(rawCommitted))
    {
      hide TouchAll, Turn, BrokenTurn, RawAcks;
      var position := rawCommitted;
      ghost var first := RawView();
      while position < |log|
        invariant old(rawCommitted) <= rawCommitted == position <= |log|
        invariant store.Valid() && store.clock <= clock(position)
        invariant forall i :: old(rawCommitted) <= i < position ==> RawAcks(log[i], faults(i))
        invariant RawView() == Turns(first, log, others, clock, old(rawCommitted), position, store.span)
      {
        assert GapOnTime(others, clock, position);
        var acked := RawTurn(log[position], others(position), clock(position), clock(position + 1), faults(position));
        if !acked {
          return;
        }
        position := position + 1;
        rawCommitted := position;
      }
    }

    /** Rejected and blocked transactions give their velocity back; completed ones never touch it. */
    method HandleSettled(message: Option<Settled>, fault: SettledFault) returns (applied: bool, acked: bool)
      requires store.Valid()
      modifies store
      ensures store.Valid() && store.clock == old(store.clock)
      ensures acked <==> SettledAcks(message, fault)
      ensures !applied <==>
                && fault.redis.NotApplied?
                && message.Some? && (message.value.status == Rejected || message.value.status == Blocked)
      ensures store.log == if applied then RefundTurn(old(store.log), message) else old(store.log)
      ensures message.Some? && (message.value.status == Rejected || message.value.status == Blocked) && applied ==>
                var e := message.value;
                store.log == old(store.log)[e.sender :=
                  old(store.Log(e.sender)) + [SlidingWindow.RolledBack(e.tx, e.amount)]]
      ensures message.None? || (message.value.status != Rejected && message.value.status != Blocked) ==>
                store.log == old(store.log)
    {
      if message.Some? && message.value.Refunds() {
        var e := message.value;
        var raised := store.RollbackVelocity(e.sender, e.tx, e.amount, fault.redis);
        if raised {
          return !fault.redis.NotApplied?, false;
        }
      }
      return true, !fault.ackFails;
    }

    method SettledTurn(
      message: Option<Settled>, accesses: seq<Access>, ghost from: nat, ghost to: nat, fault: SettledFault)
      returns (acked: bool)
      requires store.Valid() && store.clock <= from && Timely(accesses, from, to)
      modifies store
      ensures store.Valid() && store.clock <= to
      ensures acked ==> store.log == RefundTurn(TouchAll(old(store.log), accesses), message)
      ensures !acked ==> BrokenRefund(TouchAll(old(store.log), accesses), message, store.log)
      ensures acked <==> SettledAcks(message, fault)
    {
      Meanwhile(store, accesses, from, to);
      var applied;
      applied, acked := HandleSettled(message, fault);
    }

    /**
     * `process_settled_transaction`: up to the committed offset every rejected and blocked message was
     * rolled back, in order; the message at the offset, if a failure broke the loop there, at most that.
     */
    method ProcessSettledTransactions(
      log: seq<Option<Settled>>, others: nat -> seq<Access>, clock: nat -> nat, faults: nat -> SettledFault)
      requires settledCommitted <= |log| && store.Valid()
      requires store.clock <= clock(settledCommitted) && OnTime(others, clock)
      modifies this`settledCommitted, store
      ensures store.Valid() && old(settledCommitted) <= settledCommitted <= |log|
      ensures settledCommitted == |log| ==>
                store.log == RefundTurns(old(store.log), log, others, old(settledCommitted), settledCommitted)
      ensures settledCommitted < |log| ==>
                var full := RefundTurns(old(store.log), log, others, old(settledCommitted), settledCommitted);
                BrokenRefund(TouchAll(full, others(settledCommitted)), log[settledCommitted], store.log)
      ensures forall i :: old(settledCommitted) <= i < settledCommitted ==> SettledAcks(log[i], faults(i))
      ensures settledCommitted < |log| ==> !SettledAcks(log[settledCommitted], faults(settledCommitted))
    {
      hide TouchAll, RefundTurn, BrokenRefund, SettledAcks;
      var position := settledCommitted;
      ghost var first := store.log;
      while position < |log|
        invariant old(settledCommitted) <= settledCommitted == position <= |log|
        invariant store.Valid() && store.clock <= clock(position)
        invariant forall i :: old(settledCommitted) <= i < position ==> SettledAcks(log[i], faults(i))
        invariant store.log == RefundTurns(first, log, others, old(settledCommitted), position)
      {
        assert GapOnTime(others, clock, position);
        var acked := SettledTurn(
          log[position], others(position), clock(position), clock(position + 1), faults(position));
        if !acked {
          return;
        }
        position := position + 1;
        settledCommitted := position;
      }
    }
  }
}
