/**
 * No reachable state is a dead end: from each of them the pipeline can still bring every accepted
 * transaction of at most 1,000,000 cents to its verdict, and no other.
 */
module PipelineProgress {
  import opened Common
  import opened Kafka
  import opened Ledger
  import opened LedgerInvariants
  import opened Settlement
  import opened Pipeline
  import opened PipelineInvariant
  import opened PipelineResults
  import opened PipelineSteps
  import FraudScorer
  import OutboxRelay
  import SlidingWindow

  ghost predicate Reaches(s: State, t: State) {
    exists steps :: Runs(s, steps, t)
  }

  /** Each topic has a partition, and the ledger starts with balances it can hold. */
  ghost predicate Sensible(c: Config) {
    && c.rawParts > 0 && c.scoredParts > 0 && c.settledParts > 0
    && Startable(c.start) && Sum(Positive(c.start)) <= 9_223_372_036_854_775_807
  }

  /** `s` is reachable, and reachable from `s0`. */
  ghost predicate Ahead(c: Config, s0: State, s: State) {
    Reachable(c, s) && Reaches(s0, s)
  }

  lemma StartAhead(c: Config, s: State)
    requires Reachable(c, s)
    ensures Ahead(c, s, s)
  {
    assert Runs(s, [], s);
  }

  lemma Go(c: Config, s0: State, s: State, step: Step)
    requires Ahead(c, s0, s) && Enabled(s, step)
    ensures Ahead(c, s0, Next(s, step))
  {
    ReachNext(c, s, step);
    var steps :| Runs(s0, steps, s);
    RunsAppend(s0, steps, s, step);
  }

  // ---------------------------------------------------------------------------------------------
  // What no step changes
  // ---------------------------------------------------------------------------------------------

  /** Topics keep their partitions, and rows their transaction. */
  ghost predicate SameShape(s: State, t: State) {
    && |t.raw| == |s.raw| && |t.scored| == |s.scored| && |t.settled| == |s.settled|
    && forall x :: x in s.rows ==> x in t.rows && t.rows[x].raw == s.rows[x].raw
  }

  lemma StepKeepsShape(s: State, step: Step)
    requires Enabled(s, step)
    ensures SameShape(s, Next(s, step))
  {
    hide SlidingWindow.Admit, SlidingWindow.Total, SlidingWindow.Remove, FraudScorer.Score, Attempt, Apply;
    hide OutboxRelay.MarkProcessed, Fetch, SetWork, Ack, Restart, Working, CanFetch;
  }

  lemma {:induction false} RunKeepsShape(s: State, steps: seq<Step>, t: State)
    requires Runs(s, steps, t)
    ensures SameShape(s, t)
    decreases |steps|
  {
    if steps != [] {
      StepKeepsShape(s, steps[0]);
      RunKeepsShape(Next(s, steps[0]), steps[1..], t);
    }
  }

  lemma AheadShape(c: Config, s0: State, s: State)
    requires Ahead(c, s0, s)
    ensures SameShape(s0, s)
    ensures |s.raw| == c.rawParts && |s.scored| == c.scoredParts && |s.settled| == c.settledParts
  {
    var steps :| Runs(s0, steps, s);
    RunKeepsShape(s0, steps, s);
    var all :| Runs(Init(c), all, s);
    RunKeepsShape(Init(c), all, s);
  }

  // ---------------------------------------------------------------------------------------------
  // One message
  // ---------------------------------------------------------------------------------------------

  predicate IdleAt(g: seq<Consumer>, p: nat, k: nat) {
    p < |g| && g[p] == Consumer(k, k, Idle)
  }

  /** The current raw message can be scored and, if its score is valid, sent. */
  lemma ScoreCurrent(c: Config, s0: State, s: State, p: nat, k: nat) returns (t: State)
    requires Ahead(c, s0, s) && p < |s.raw| && 0 < |s.scored|
    requires p < |s.scorer| && s.scorer[p] == Consumer(k, k + 1, Fetched) && k < |s.raw[p]|
    ensures Ahead(c, s0, t) && t.raw == s.raw && p < |t.scorer| && t.scorer[p] == Consumer(k, k + 1, Handled)
  {
    hide Ahead, SlidingWindow.Admit, SlidingWindow.Total, FraudScorer.Score;
    t := Next(s, Score(p, s.clock));
    Go(c, s0, s, Score(p, s.clock));
    if t.scorer[p].work.Ready? {
      Go(c, s0, t, SendScored(p, 0));
      t := Next(t, SendScored(p, 0));
    }
  }

  lemma ScoreNext(c: Config, s0: State, s: State, p: nat, k: nat) returns (t: State)
    requires Sensible(c) && Ahead(c, s0, s) && p < |s.raw| && IdleAt(s.scorer, p, k) && k < |s.raw[p]|
    ensures Ahead(c, s0, t) && t.raw == s.raw && IdleAt(t.scorer, p, k + 1)
  {
    hide Ahead, SlidingWindow.Admit, SlidingWindow.Total, FraudScorer.Score;
    AheadShape(c, s0, s);
    var s1 := Next(s, FetchNext(Scorer, p));
    Go(c, s0, s, FetchNext(Scorer, p));
    var s2 := ScoreCurrent(c, s0, s1, p, k);
    t := Next(s2, AckCurrent(Scorer, p));
    Go(c, s0, s2, AckCurrent(Scorer, p));
  }

  lemma PostNext(c: Config, s0: State, s: State, p: nat, k: nat) returns (t: State)
    requires Sensible(c) && Ahead(c, s0, s) && p < |s.scored| && IdleAt(s.poster, p, k) && k < |s.scored[p]|
    ensures Ahead(c, s0, t) && t.scored == s.scored && IdleAt(t.poster, p, k + 1)
  {
    hide Reaches, Runs, Attempt, Apply;
    var s1 := Next(s, FetchNext(Poster, p));
    Go(c, s0, s, FetchNext(Poster, p));
    PostNeverRaises(c, s1, p);
    var s2 := Next(s1, Post(p));
    Go(c, s0, s1, Post(p));
    t := Next(s2, AckCurrent(Poster, p));
    Go(c, s0, s2, AckCurrent(Poster, p));
  }

  lemma UpdateNext(c: Config, s0: State, s: State, p: nat, k: nat) returns (t: State)
    requires Ahead(c, s0, s) && p < |s.settled| && IdleAt(s.updater, p, k) && k < |s.settled[p]|
    ensures Ahead(c, s0, t) && t.settled == s.settled && IdleAt(t.updater, p, k + 1)
  {
    hide Ahead, Overwrite;
    var s1 := Next(s, FetchNext(Updater, p));
    Go(c, s0, s, FetchNext(Updater, p));
    var s2 := Next(s1, Update(p));
    Go(c, s0, s1, Update(p));
    t := Next(s2, AckCurrent(Updater, p));
    Go(c, s0, s2, AckCurrent(Updater, p));
  }

  // ---------------------------------------------------------------------------------------------
  // Up to a given offset
  // ---------------------------------------------------------------------------------------------

  lemma {:induction false} ScoreUpTo(c: Config, s0: State, s: State, p: nat, k: nat, i: nat) returns (t: State)
    requires Sensible(c) && Ahead(c, s0, s) && p < |s.raw| && IdleAt(s.scorer, p, k) && k <= i <= |s.raw[p]|
    ensures Ahead(c, s0, t) && t.raw == s.raw && IdleAt(t.scorer, p, i)
    decreases i - k
  {
    if k == i {
      return s;
    }
    var u := ScoreNext(c, s0, s, p, k);
    t := ScoreUpTo(c, s0, u, p, k + 1, i);
  }

  lemma {:induction false} PostUpTo(c: Config, s0: State, s: State, p: nat, k: nat, i: nat) returns (t: State)
    requires Sensible(c) && Ahead(c, s0, s) && p < |s.scored| && IdleAt(s.poster, p, k) && k <= i <= |s.scored[p]|
    ensures Ahead(c, s0, t) && t.scored == s.scored && IdleAt(t.poster, p, i)
    decreases i - k
  {
    if k == i {
      return s;
    }
    var u := PostNext(c, s0, s, p, k);
    t := PostUpTo(c, s0, u, p, k + 1, i);
  }

  lemma {:induction false} UpdateUpTo(c: Config, s0: State, s: State, p: nat, k: nat, i: nat) returns (t: State)
    requires Ahead(c, s0, s) && p < |s.settled| && IdleAt(s.updater, p, k) && k <= i <= |s.settled[p]|
    ensures Ahead(c, s0, t) && t.settled == s.settled && IdleAt(t.updater, p, i)
    decreases i - k
  {
    if k == i {
      return s;
    }
    var u := UpdateNext(c, s0, s, p, k);
    t := UpdateUpTo(c, s0, u, p, k + 1, i);
  }

  /** A restart puts any consumer at its committed offset. */
  lemma RestartIdle(c: Config, s0: State, s: State, g: Group, p: nat) returns (t: State)
    requires Ahead(c, s0, s) && p < |Consumers(s, g)|
    ensures Ahead(c, s0, t) && IdleAt(Consumers(t, g), p, Consumers(s, g)[p].committed)
    ensures t.raw == s.raw && t.scored == s.scored && t.settled == s.settled && t.clock == s.clock
  {
    t := Next(s, RestartGroup(g, p));
    Go(c, s0, s, RestartGroup(g, p));
  }

  // ---------------------------------------------------------------------------------------------
  // Hop by hop
  // ---------------------------------------------------------------------------------------------

  /** A message of the settled topic can be shown at the gateway. */
  lemma SettledToFinal(c: Config, s0: State, s: State, e: Settled) returns (t: State)
    requires Startable(c.start) && Ahead(c, s0, s) && InLog(s.settled, e)
    ensures Ahead(c, s0, t) && Final(t, e.tx)
  {
    hide Reaches, Runs, Final, Next, Enabled, RowsOk, RawOk, ScorerOk, ScoredOk, ScoringsOk, PosterOk,
      LedgerOk, SettledOk, StatusesOk;
    ReachableInv(c, s);
    HandledOrDue(s.settled, s.updater, e);
    t := s;
    if !IsHandled(s.settled, s.updater, e) {
      var p, i :| UnackedAt(s.settled, s.updater, p, i, e);
      assert At(s.settled, p, i, e);
      var u := RestartIdle(c, s0, s, Updater, p);
      t := UpdateUpTo(c, s0, u, p, s.updater[p].committed, i + 1);
      ReachableInv(c, t);
      assert HandledAt(t.settled, t.updater, p, i, e);
    }
    HandledIsFinal(c, t, e);
  }

  lemma HandledIsFinal(c: Config, s: State, e: Settled)
    requires Startable(c.start) && Reachable(c, s) && IsHandled(s.settled, s.updater, e)
    ensures Final(s, e.tx)
  {
    ReachableInv(c, s);
    assert Shows(s.rows, e);
    var p, i :| HandledAt(s.settled, s.updater, p, i, e);
    assert At(s.settled, p, i, e) && InLog(s.settled, e);
    OneVerdict(s.ledger, e, e);
  }

  /** A recorded transaction can be published and shown. */
  lemma RecordedToFinal(c: Config, s0: State, s: State, x: TxId) returns (t: State)
    requires Sensible(c) && Ahead(c, s0, s) && x in s.ledger.transactions
    ensures Ahead(c, s0, t) && Final(t, x)
  {
    ReachableInv(c, s);
    AheadShape(c, s0, s);
    var i: int :| EventAt(s.ledger, x, i);
    var e := s.ledger.outbox[i].event;
    var u := s;
    if s.ledger.outbox[i].status.Unsent? && i !in s.settling {
      u := Next(s, PublishSettled(i, 0));
      Go(c, s0, s, PublishSettled(i, 0));
      AppendFacts(s.settled, 0, e);
    }
    assert InLog(u.settled, e);
    t := SettledToFinal(c, s0, u, e);
  }

  /** A message of the scored topic can be recorded. */
  lemma ScoredToFinal(c: Config, s0: State, s: State, tx: RawTx) returns (t: State)
    requires Sensible(c) && Ahead(c, s0, s) && HasScored(s.scored, tx)
    ensures Ahead(c, s0, t) && Final(t, tx.id)
  {
    hide Reaches, Runs, Final, Next, Enabled, RowsOk, RawOk, ScorerOk, ScoredOk, ScoringsOk, LedgerOk,
      SettledOk, UpdaterOk, StatusesOk;
    ReachableInv(c, s);
    var m :| InLog(s.scored, m) && m.raw == tx;
    HandledOrDue(s.scored, s.poster, m);
    var u := s;
    if !IsHandled(s.scored, s.poster, m) {
      var p, i :| UnackedAt(s.scored, s.poster, p, i, m);
      assert At(s.scored, p, i, m);
      var v := RestartIdle(c, s0, s, Poster, p);
      u := PostUpTo(c, s0, v, p, s.poster[p].committed, i + 1);
      ReachableInv(c, u);
      assert HandledAt(u.scored, u.poster, p, i, m);
    }
    assert m.raw.id in u.ledger.transactions;
    t := RecordedToFinal(c, s0, u, tx.id);
  }

  /** A message of the raw topic can be scored, if its score is valid. */
  lemma RawToFinal(c: Config, s0: State, s: State, tx: RawTx) returns (t: State)
    requires Sensible(c) && Ahead(c, s0, s) && InLog(s.raw, tx) && tx.amount <= 1_000_000
    ensures Ahead(c, s0, t) && Final(t, tx.id)
  {
    hide Reaches, Runs, Final, Next, Enabled, RowsOk, RawOk, ScoredOk, ScoringsOk, PosterOk, LedgerOk,
      SettledOk, UpdaterOk, StatusesOk;
    ReachableInv(c, s);
    HandledOrDue(s.raw, s.scorer, tx);
    var u := s;
    if !IsHandled(s.raw, s.scorer, tx) {
      var p, i :| UnackedAt(s.raw, s.scorer, p, i, tx);
      assert At(s.raw, p, i, tx);
      var v := RestartIdle(c, s0, s, Scorer, p);
      u := ScoreUpTo(c, s0, v, p, s.scorer[p].committed, i + 1);
      ReachableInv(c, u);
      assert HandledAt(u.raw, u.scorer, p, i, tx);
    }
    t := ScoredToFinal(c, s0, u, tx);
  }

  /** An accepted transaction can be published. */
  lemma AcceptedToFinal(c: Config, s: State, x: TxId) returns (t: State)
    requires Sensible(c) && Reachable(c, s) && x in s.rows && s.rows[x].raw.amount <= 1_000_000
    ensures Ahead(c, s, t) && Final(t, x)
  {
    StartAhead(c, s);
    ReachableInv(c, s);
    AheadShape(c, s, s);
    var raws, tx := Raws(s.rows), s.rows[x].raw;
    assert raws[x] == tx && tx.id == x;
    var i: int :| RowAt(s.outbox, raws[x], i);
    var u := s;
    if s.outbox[i].status.Unsent? && i !in s.relaying {
      u := Next(s, Publish(i, 0));
      Go(c, s, s, Publish(i, 0));
      AppendFacts(s.raw, 0, tx);
    }
    assert InLog(u.raw, tx);
    t := RawToFinal(c, s, u, tx);
  }

  /**
   * Exactly the transactions of at most 1,000,000 cents can get a verdict: from every reachable state,
   * whatever crashed before, some continuation makes the transaction final if and only if its amount is
   * at most that.
   */
  lemma VerdictIsReachableExactly(c: Config, s: State, x: TxId)
    requires Sensible(c) && Reachable(c, s) && x in s.rows
    ensures (exists t :: Reaches(s, t) && Final(t, x)) <==> s.rows[x].raw.amount <= 1_000_000
  {
    if s.rows[x].raw.amount <= 1_000_000 {
      var t := AcceptedToFinal(c, s, x);
    } else {
      forall t | Reaches(s, t) ensures !Final(t, x) {
        ReachesFrom(c, s, t);
        AheadShape(c, s, t);
        OversizedStaysPending(c, t, x);
      }
    }
  }

  lemma ReachesFrom(c: Config, s: State, t: State)
    requires Reachable(c, s) && Reaches(s, t)
    ensures Ahead(c, s, t)
  {
    var steps :| Runs(s, steps, t);
    RunKeepsReachable(c, s, steps, t);
  }

  lemma {:induction false} RunKeepsReachable(c: Config, s: State, steps: seq<Step>, t: State)
    requires Reachable(c, s) && Runs(s, steps, t)
    ensures Reachable(c, t)
    decreases |steps|
  {
    if steps != [] {
      ReachNext(c, s, steps[0]);
      RunKeepsReachable(c, Next(s, steps[0]), steps[1..], t);
    }
  }

  // ---------------------------------------------------------------------------------------------
  // Refunds and marks
  // ---------------------------------------------------------------------------------------------

  lemma RefundNext(c: Config, s0: State, s: State, p: nat, k: nat) returns (t: State)
    requires Ahead(c, s0, s) && p < |s.settled| && IdleAt(s.refunder, p, k) && k < |s.settled[p]|
    ensures Ahead(c, s0, t) && t.settled == s.settled && t.clock == s.clock && IdleAt(t.refunder, p, k + 1)
    ensures var e := s.settled[p][k];
            e.status == Rejected || e.status == Blocked ==> !Counts(t, e.sender, e.tx, e.amount)
  {
    hide Ahead, Counts, SlidingWindow.Remove, FraudScorer.Score, Attempt, Apply, Overwrite, OutboxRelay.MarkProcessed;
    var s1 := Next(s, FetchNext(Refunder, p));
    Go(c, s0, s, FetchNext(Refunder, p));
    RefundExactly(s1, p);
    var s2 := Next(s1, Refund(p));
    Go(c, s0, s1, Refund(p));
    t := Next(s2, AckCurrent(Refunder, p));
    Go(c, s0, s2, AckCurrent(Refunder, p));
    assert t.windows == s2.windows;
    SameCounts(s2, t, s.settled[p][k]);
  }

  lemma SameCounts(s: State, t: State, e: Settled)
    requires t.windows == s.windows
    ensures Counts(t, e.sender, e.tx, e.amount) == Counts(s, e.sender, e.tx, e.amount)
  {
  }

  lemma {:induction false} RefundUpTo(c: Config, s0: State, s: State, p: nat, k: nat, i: nat) returns (t: State)
    requires Ahead(c, s0, s) && p < |s.settled| && IdleAt(s.refunder, p, k) && k <= i <= |s.settled[p]|
    ensures Ahead(c, s0, t) && t.settled == s.settled && t.clock == s.clock && IdleAt(t.refunder, p, i)
    decreases i - k
  {
    hide Ahead, Counts;
    if k == i {
      return s;
    }
    var u := RefundNext(c, s0, s, p, k);
    t := RefundUpTo(c, s0, u, p, k + 1, i);
  }

  /**
   * While the verdict "rejected" or "blocked" of a transaction is not acknowledged by the processor, its
   * velocity can still be given back, without waiting for the window to pass.
   */
  lemma DueRefundCanHappen(c: Config, s: State, p: nat, i: nat)
    requires Startable(c.start) && Reachable(c, s) && p < |s.settled| && i < |s.settled[p]| && p < |s.refunder|
    requires s.refunder[p].committed <= i
    requires s.settled[p][i].status == Rejected || s.settled[p][i].status == Blocked
    ensures var e := s.settled[p][i];
            exists t :: Reaches(s, t) && t.clock == s.clock && !Counts(t, e.sender, e.tx, e.amount)
  {
    hide Counts, Runs, Reachable, Reaches, Next, Enabled;
    StartAhead(c, s);
    var u := RestartIdle(c, s, s, Refunder, p);
    var v := RefundUpTo(c, s, u, p, s.refunder[p].committed, i);
    var t := RefundNext(c, s, v, p, i);
    assert Reaches(s, t) && t.clock == s.clock;
  }

  /** Every pending row of both outboxes can still be published and marked. */
  lemma RowsCanBeMarked(c: Config, s: State, i: nat)
    requires Sensible(c) && Reachable(c, s)
    ensures i < |s.outbox| ==>
              exists t :: Reaches(s, t) && i < |t.outbox| && t.outbox[i] == OutboxRow(s.outbox[i].event, Processed)
    ensures i < |s.ledger.outbox| ==>
              exists t :: Reaches(s, t) && i < |t.ledger.outbox|
                          && t.ledger.outbox[i] == OutboxRow(s.ledger.outbox[i].event, Processed)
  {
    if i < |s.outbox| {
      var t := MarkGateway(c, s, i);
    }
    if i < |s.ledger.outbox| {
      var t := MarkLedger(c, s, i);
    }
  }

  lemma MarkGateway(c: Config, s: State, i: nat) returns (t: State)
    requires Sensible(c) && Reachable(c, s) && i < |s.outbox|
    ensures Reaches(s, t) && i < |t.outbox| && t.outbox[i] == OutboxRow(s.outbox[i].event, Processed)
  {
    StartAhead(c, s);
    AheadShape(c, s, s);
    t := s;
    if s.outbox[i].status == Unsent {
      if i !in s.relaying {
        GatewayPublicationExactly(s, i, 0);
        t := Next(s, Publish(i, 0));
        Go(c, s, s, Publish(i, 0));
      }
      GatewayRelayExactly(t, {i});
      var u := Next(t, Confirm({i}));
      Go(c, s, t, Confirm({i}));
      t := u;
    }
  }

  lemma MarkLedger(c: Config, s: State, i: nat) returns (t: State)
    requires Sensible(c) && Reachable(c, s) && i < |s.ledger.outbox|
    ensures Reaches(s, t) && i < |t.ledger.outbox|
    ensures t.ledger.outbox[i] == OutboxRow(s.ledger.outbox[i].event, Processed)
  {
    StartAhead(c, s);
    AheadShape(c, s, s);
    t := s;
    if s.ledger.outbox[i].status == Unsent {
      if i !in s.settling {
        LedgerPublicationExactly(s, i, 0);
        t := Next(s, PublishSettled(i, 0));
        Go(c, s, s, PublishSettled(i, 0));
      }
      LedgerRelayExactly(t, {i});
      var u := Next(t, ConfirmSettled({i}));
      Go(c, s, t, ConfirmSettled({i}));
      t := u;
    }
  }
}
