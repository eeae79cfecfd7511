/** What every reachable state of the pipeline satisfies. */
module PipelineInvariant {
  import opened Common
  import opened Kafka
  import opened Ledger
  import opened LedgerInvariants
  import opened Settlement
  import opened Pipeline
  import FraudScorer
  import OutboxRelay
  import SlidingWindow

  /** The immutable columns of the gateway's transactions table. */
  function Raws(rows: map<TxId, TxRow>): map<TxId, RawTx> {
    map x | x in rows :: rows[x].raw
  }

  /** The message is the one the gateway accepted under this id. */
  predicate Genuine(raws: map<TxId, RawTx>, tx: RawTx) {
    tx.id in raws && raws[tx.id] == tx
  }

  ghost predicate RowAt(outbox: seq<OutboxRow<RawTx>>, tx: RawTx, i: int) {
    0 <= i < |outbox| && outbox[i].event == tx
  }

  ghost predicate RowsOk(raws: map<TxId, RawTx>, outbox: seq<OutboxRow<RawTx>>) {
    && (forall x :: x in raws ==> raws[x].id == x && exists i :: RowAt(outbox, raws[x], i))
    && (forall i :: 0 <= i < |outbox| ==> Genuine(raws, outbox[i].event))
  }

  /** Rows marked PROCESSED, or about to be, are in the raw topic, and nothing else is. */
  ghost predicate RawOk(
    raws: map<TxId, RawTx>, outbox: seq<OutboxRow<RawTx>>, relaying: set<nat>, raw: Topic<RawTx>)
  {
    && (forall m :: InLog(raw, m) ==> Genuine(raws, m))
    && (forall i :: i in relaying ==> i < |outbox|)
    && (forall i :: 0 <= i < |outbox| && (outbox[i].status.Processed? || i in relaying) ==> InLog(raw, outbox[i].event))
  }

  ghost predicate HasScored(scored: Topic<ScoredTx>, tx: RawTx) {
    exists m :: InLog(scored, m) && m.raw == tx
  }

  /** A handled raw message of at most 1,000,000 cents is in the scored topic. */
  ghost predicate ScorerOk(raw: Topic<RawTx>, scorer: seq<Consumer>, scored: Topic<ScoredTx>) {
    && GroupOk(raw, scorer)
    && (forall m :: IsHandled(raw, scorer, m) && m.amount <= 1_000_000 ==> HasScored(scored, m))
    && (forall p :: 0 <= p < |scorer| && scorer[p].work.Ready? ==>
          Working(raw, scorer, p) && scorer[p].work.result.raw == Current(raw, scorer, p))
  }

  predicate Gives(sc: Scoring, m: ScoredTx) {
    FraudScorer.Score(sc.raw, SlidingWindow.Total(sc.win)) == FraudScorer.Evaluated(m)
  }

  ghost predicate FromScoring(scorings: seq<Scoring>, m: ScoredTx) {
    exists k :: 0 <= k < |scorings| && Gives(scorings[k], m)
  }

  ghost predicate ScoredOk(scorings: seq<Scoring>, scorer: seq<Consumer>, scored: Topic<ScoredTx>) {
    && (forall m :: InLog(scored, m) ==> FromScoring(scorings, m))
    && (forall p :: 0 <= p < |scorer| && scorer[p].work.Ready? ==> FromScoring(scorings, scorer[p].work.result))
  }

  ghost predicate ScoringsOk(raws: map<TxId, RawTx>, scorings: seq<Scoring>) {
    forall k :: 0 <= k < |scorings| ==>
      && Genuine(raws, scorings[k].raw)
      && SlidingWindow.Entry(scorings[k].raw.id, scorings[k].raw.amount, scorings[k].at) in scorings[k].win
  }

  /** A handled scored message is recorded in the ledger. */
  ghost predicate PosterOk(scored: Topic<ScoredTx>, poster: seq<Consumer>, ledger: Ledger) {
    && GroupOk(scored, poster)
    && (forall m :: IsHandled(scored, poster, m) ==> m.raw.id in ledger.transactions)
  }

  predicate Approves(sc: Scoring) {
    var result := FraudScorer.Score(sc.raw, SlidingWindow.Total(sc.win));
    result.Evaluated? && result.tx.decision.DecisionApproved?
  }

  ghost predicate ApprovedAt(scorings: seq<Scoring>, x: TxId, k: int) {
    0 <= k < |scorings| && scorings[k].raw.id == x && Approves(scorings[k])
  }

  /** The ledger only knows accepted transactions, and completes only approved ones. */
  ghost predicate LedgerOk(start: map<AccountId, int>, raws: map<TxId, RawTx>, scorings: seq<Scoring>, ledger: Ledger) {
    Sound(start, ledger) && Provenance(raws, scorings, ledger)
  }

  ghost predicate Provenance(raws: map<TxId, RawTx>, scorings: seq<Scoring>, ledger: Ledger) {
    && (forall x :: x in ledger.transactions ==> x in raws && raws[x].amount <= 1_000_000)
    && (forall x :: x in ledger.transactions && ledger.transactions[x].Completed? ==>
          exists k :: ApprovedAt(scorings, x, k))
    && (forall i :: 0 <= i < |ledger.outbox| ==>
          var e := ledger.outbox[i].event;
          e.tx in raws && e.sender == raws[e.tx].sender && e.amount == raws[e.tx].amount)
  }

  ghost predicate Says(ledger: Ledger, e: Settled) {
    exists i :: 0 <= i < |ledger.outbox| && ledger.outbox[i].event == e
  }

  /** The settled topic repeats only what the ledger says, and all that is marked as sent. */
  ghost predicate SettledOk(ledger: Ledger, settling: set<nat>, settled: Topic<Settled>) {
    && (forall e :: InLog(settled, e) ==> Says(ledger, e))
    && (forall i :: i in settling ==> i < |ledger.outbox|)
    && (forall i :: 0 <= i < |ledger.outbox| && (ledger.outbox[i].status.Processed? || i in settling) ==>
          InLog(settled, ledger.outbox[i].event))
  }

  predicate Shows(rows: map<TxId, TxRow>, e: Settled) {
    e.tx in rows && rows[e.tx].status == e.status && rows[e.tx].reason == e.reason
  }

  /** A handled settled message is visible at the gateway. */
  ghost predicate UpdaterOk(settled: Topic<Settled>, updater: seq<Consumer>, rows: map<TxId, TxRow>) {
    && GroupOk(settled, updater)
    && (forall e :: IsHandled(settled, updater, e) ==> Shows(rows, e))
  }

  /** A gateway status is PENDING or the ledger's verdict. */
  ghost predicate StatusOk(ledger: Ledger, row: TxRow) {
    || (row.status == Pending && row.reason == None)
    || exists e :: Says(ledger, e) && e.tx == row.raw.id && row.status == e.status && row.reason == e.reason
  }

  ghost predicate StatusesOk(rows: map<TxId, TxRow>, ledger: Ledger) {
    forall x :: x in rows ==> rows[x].raw.id == x && StatusOk(ledger, rows[x])
  }

  ghost predicate Inv(start: map<AccountId, int>, s: State) {
    var raws := Raws(s.rows);
    && RowsOk(raws, s.outbox)
    && RawOk(raws, s.outbox, s.relaying, s.raw)
    && ScorerOk(s.raw, s.scorer, s.scored)
    && ScoredOk(s.scorings, s.scorer, s.scored)
    && ScoringsOk(raws, s.scorings)
    && PosterOk(s.scored, s.poster, s.ledger)
    && LedgerOk(start, raws, s.scorings, s.ledger)
    && SettledOk(s.ledger, s.settling, s.settled)
    && UpdaterOk(s.settled, s.updater, s.rows)
    && GroupOk(s.settled, s.refunder)
    && StatusesOk(s.rows, s.ledger)
  }

  // ---------------------------------------------------------------------------------------------
  // Verdicts
  // ---------------------------------------------------------------------------------------------

  /** The ledger says one thing per transaction. */
  lemma OneVerdict(ledger: Ledger, e: Settled, e': Settled)
    requires OneEventEach(ledger) && Says(ledger, e) && Says(ledger, e') && e.tx == e'.tx
    ensures e == e' && e.tx in ledger.transactions && ledger.transactions[e.tx] == e.status
    ensures e.status != Pending
  {
    var i :| 0 <= i < |ledger.outbox| && ledger.outbox[i].event == e;
    var j :| 0 <= j < |ledger.outbox| && ledger.outbox[j].event == e';
    assert i == j;
  }

  // ---------------------------------------------------------------------------------------------
  // One step
  // ---------------------------------------------------------------------------------------------

  lemma SubmitKeeps(start: map<AccountId, int>, s: State, step: Step)
    requires Inv(start, s) && step.Submit? && Enabled(s, step)
    ensures Inv(start, Next(s, step))
  {
    hide RowsOk, RawOk, ScorerOk, ScoredOk, ScoringsOk, PosterOk, LedgerOk, SettledOk, UpdaterOk, StatusesOk,
      GroupOk, IsHandled, InLog;
    var tx := step.tx;
    assert Raws(s.rows[tx.id := TxRow(tx, Pending, None)]) == Raws(s.rows)[tx.id := tx];
    SubmitRows(Raws(s.rows), s.outbox, tx);
    SubmitRaw(Raws(s.rows), s.outbox, s.relaying, s.raw, tx);
    SubmitHistory(start, Raws(s.rows), s.scorings, s.ledger, tx);
    SubmitStatus(s.rows, s.ledger, s.settled, s.updater, tx);
  }

  lemma SubmitRaw(
    raws: map<TxId, RawTx>, outbox: seq<OutboxRow<RawTx>>, relaying: set<nat>, raw: Topic<RawTx>, tx: RawTx)
    requires RawOk(raws, outbox, relaying, raw) && tx.id !in raws
    ensures RawOk(raws[tx.id := tx], outbox + [OutboxRow(tx, Unsent)], relaying, raw)
  {
  }

  lemma SubmitHistory(
    start: map<AccountId, int>, raws: map<TxId, RawTx>, scorings: seq<Scoring>, ledger: Ledger, tx: RawTx)
    requires ScoringsOk(raws, scorings) && LedgerOk(start, raws, scorings, ledger) && tx.id !in raws
    ensures ScoringsOk(raws[tx.id := tx], scorings) && LedgerOk(start, raws[tx.id := tx], scorings, ledger)
  {
    assert Provenance(raws[tx.id := tx], scorings, ledger);
  }

  lemma SubmitStatus(
    rows: map<TxId, TxRow>, ledger: Ledger, settled: Topic<Settled>, updater: seq<Consumer>, tx: RawTx)
    requires StatusesOk(rows, ledger) && UpdaterOk(settled, updater, rows) && tx.id !in rows
    ensures var rows' := rows[tx.id := TxRow(tx, Pending, None)];
            StatusesOk(rows', ledger) && UpdaterOk(settled, updater, rows')
  {
    var rows' := rows[tx.id := TxRow(tx, Pending, None)];
    forall e | IsHandled(settled, updater, e) ensures Shows(rows', e) {
      assert Shows(rows, e);
    }
    forall x | x in rows' ensures rows'[x].raw.id == x && StatusOk(ledger, rows'[x]) {
      assert x != tx.id ==> rows'[x] == rows[x];
    }
  }

  lemma SubmitRows(raws: map<TxId, RawTx>, outbox: seq<OutboxRow<RawTx>>, tx: RawTx)
    requires RowsOk(raws, outbox) && tx.id !in raws
    ensures RowsOk(raws[tx.id := tx], outbox + [OutboxRow(tx, Unsent)])
  {
    var raws', outbox' := raws[tx.id := tx], outbox + [OutboxRow(tx, Unsent)];
    forall x | x in raws' ensures exists i :: RowAt(outbox', raws'[x], i) {
      if x == tx.id {
        assert RowAt(outbox', raws'[x], |outbox|);
      } else {
        var i :| RowAt(outbox, raws[x], i);
        assert RowAt(outbox', raws'[x], i);
      }
    }
  }

  lemma PublishKeeps(start: map<AccountId, int>, s: State, step: Step)
    requires Inv(start, s) && step.Publish? && Enabled(s, step)
    ensures Inv(start, Next(s, step))
  {
    hide RowsOk, RawOk, ScorerOk, ScoredOk, ScoringsOk, PosterOk, LedgerOk, SettledOk, UpdaterOk, StatusesOk,
      GroupOk, IsHandled, InLog, Append;
    PublishRaw(Raws(s.rows), s.outbox, s.relaying, s.raw, step.i, step.p);
    PublishScorer(s.raw, s.scorer, s.scored, step.p, s.outbox[step.i].event);
  }

  lemma PublishRaw(
    raws: map<TxId, RawTx>, outbox: seq<OutboxRow<RawTx>>, relaying: set<nat>, raw: Topic<RawTx>, i: nat, p: nat)
    requires RowsOk(raws, outbox) && RawOk(raws, outbox, relaying, raw) && i < |outbox| && p < |raw|
    ensures RawOk(raws, outbox, relaying + {i}, Append(raw, p, outbox[i].event))
  {
    AppendFacts(raw, p, outbox[i].event);
  }

  lemma PublishScorer(raw: Topic<RawTx>, g: seq<Consumer>, scored: Topic<ScoredTx>, p: nat, m: RawTx)
    requires ScorerOk(raw, g, scored) && p < |raw|
    ensures ScorerOk(Append(raw, p, m), g, scored)
  {
    AppendGroup(raw, g, p, m);
    AppendCurrent(raw, g, p, m);
  }

  lemma AppendCurrent<M>(t: Topic<M>, g: seq<Consumer>, p: nat, m: M)
    requires p < |t|
    ensures forall q: nat :: Working(t, g, q) ==>
              Working(Append(t, p, m), g, q) && Current(Append(t, p, m), g, q) == Current(t, g, q)
  {
  }

  lemma ConfirmKeeps(start: map<AccountId, int>, s: State, step: Step)
    requires Inv(start, s) && (step.Confirm? || step.Drop?) && Enabled(s, step)
    ensures Inv(start, Next(s, step))
  {
    hide RowsOk, RawOk, ScorerOk, ScoredOk, ScoringsOk, PosterOk, LedgerOk, SettledOk, UpdaterOk, StatusesOk,
      GroupOk;
    var t := Next(s, step);
    SameOutbox(Raws(s.rows), s.outbox, t.outbox);
    MarkedAreSent(Raws(s.rows), s.outbox, s.relaying, s.raw, step.done);
  }

  lemma SameOutbox(raws: map<TxId, RawTx>, outbox: seq<OutboxRow<RawTx>>, outbox': seq<OutboxRow<RawTx>>)
    requires RowsOk(raws, outbox) && |outbox'| == |outbox|
    requires forall i :: 0 <= i < |outbox| ==> outbox'[i].event == outbox[i].event
    ensures RowsOk(raws, outbox')
  {
    forall x | x in raws ensures exists i :: RowAt(outbox', raws[x], i) {
      var i :| RowAt(outbox, raws[x], i);
      assert RowAt(outbox', raws[x], i);
    }
  }

  lemma MarkedAreSent(
    raws: map<TxId, RawTx>, outbox: seq<OutboxRow<RawTx>>, relaying: set<nat>, raw: Topic<RawTx>, done: set<nat>)
    requires RawOk(raws, outbox, relaying, raw) && done <= relaying
    ensures RawOk(raws, OutboxRelay.MarkProcessed(outbox, done), relaying - done, raw)
    ensures RawOk(raws, outbox, relaying - done, raw)
  {
  }

  lemma ConsumerKeeps(start: map<AccountId, int>, s: State, step: Step)
    requires Inv(start, s) && (step.FetchNext? || step.AckCurrent? || step.RestartGroup?) && Enabled(s, step)
    ensures Inv(start, Next(s, step))
  {
    hide RowsOk, RawOk, ScorerOk, ScoredOk, ScoringsOk, PosterOk, LedgerOk, SettledOk, UpdaterOk, StatusesOk;
    hide GroupOk, Fetch, Ack, Restart, CanFetch;
    var g' := Consumers(Next(s, step), step.g);
    match step.g
    case Scorer => MoveScorer(s.raw, s.scorer, g', step, s.scored, s.scorings);
    case Poster => MovePoster(s.scored, s.poster, g', step, s.ledger);
    case Updater => MoveUpdater(s.settled, s.updater, g', step, s.rows);
    case Refunder => MoveKeeps(s.settled, s.refunder, g', step);
  }

  predicate Moves<M>(t: Topic<M>, g: seq<Consumer>, g': seq<Consumer>, step: Step) {
    match step
    case FetchNext(_, p) => CanFetch(t, g, p) && g' == Fetch(g, p)
    case AckCurrent(_, p) => p < |g| && g[p].work.Handled? && g' == Ack(g, p)
    case RestartGroup(_, p) => p < |g| && g' == Restart(g, p)
    case _ => false
  }

  /** Fetching, acknowledging and restarting make no message handled that was not. */
  lemma MoveKeeps<M>(t: Topic<M>, g: seq<Consumer>, g': seq<Consumer>, step: Step)
    requires GroupOk(t, g) && Moves(t, g, g', step)
    ensures GroupOk(t, g')
    ensures forall m :: IsHandled(t, g', m) ==> IsHandled(t, g, m)
    ensures forall q: nat :: q < |g'| && g'[q].work.Ready? ==> q < |g| && g'[q] == g[q]
  {
    match step
    case FetchNext(_, p) => FetchGroup(t, g, p);
    case AckCurrent(_, p) => AckGroup(t, g, p);
    case RestartGroup(_, p) => Kafka.RestartGroup(t, g, p);
  }

  lemma MoveScorer(
    raw: Topic<RawTx>, g: seq<Consumer>, g': seq<Consumer>, step: Step, scored: Topic<ScoredTx>, scorings: seq<Scoring>)
    requires ScorerOk(raw, g, scored) && ScoredOk(scorings, g, scored) && Moves(raw, g, g', step)
    ensures ScorerOk(raw, g', scored) && ScoredOk(scorings, g', scored)
  {
    MoveKeeps(raw, g, g', step);
  }

  lemma MovePoster(scored: Topic<ScoredTx>, g: seq<Consumer>, g': seq<Consumer>, step: Step, ledger: Ledger)
    requires PosterOk(scored, g, ledger) && Moves(scored, g, g', step)
    ensures PosterOk(scored, g', ledger)
  {
    MoveKeeps(scored, g, g', step);
  }

  lemma MoveUpdater(
    settled: Topic<Settled>, g: seq<Consumer>, g': seq<Consumer>, step: Step, rows: map<TxId, TxRow>)
    requires UpdaterOk(settled, g, rows) && Moves(settled, g, g', step)
    ensures UpdaterOk(settled, g', rows)
  {
    MoveKeeps(settled, g, g', step);
  }

  lemma ScoreKeeps(start: map<AccountId, int>, s: State, step: Step)
    requires Inv(start, s) && step.Score? && Enabled(s, step)
    ensures Inv(start, Next(s, step))
  {
    hide RowsOk, ScorerOk, ScoredOk, ScoringsOk, PosterOk, LedgerOk, SettledOk, UpdaterOk, StatusesOk,
      GroupOk, IsHandled, InLog, FraudScorer.Score, SlidingWindow.Admit, SlidingWindow.Total;
    var t := Next(s, step);
    var sc := t.scorings[|s.scorings|];
    ScoreParts(Raws(s.rows), s.raw, s.scorer, step.p, sc, Window(s, sc.raw.sender), s.span, s.scored, s.scorings);
    ScoreLedger(start, s, sc);
  }

  lemma ScoreParts(
    raws: map<TxId, RawTx>, raw: Topic<RawTx>, g: seq<Consumer>, p: nat, sc: Scoring,
    before: seq<SlidingWindow.Entry>, span: nat, scored: Topic<ScoredTx>, scorings: seq<Scoring>)
    requires ScorerOk(raw, g, scored) && ScoredOk(scorings, g, scored) && ScoringsOk(raws, scorings)
    requires forall m :: InLog(raw, m) ==> Genuine(raws, m)
    requires Working(raw, g, p) && sc.raw == Current(raw, g, p)
    requires sc.win == SlidingWindow.Admit(before, sc.raw.id, sc.raw.amount, sc.at, span)
    ensures var result := FraudScorer.Score(sc.raw, SlidingWindow.Total(sc.win));
            var g' := SetWork(g, p, if result.Evaluated? then Ready(result.tx) else Handled);
            && ScorerOk(raw, g', scored) && ScoredOk(scorings + [sc], g', scored)
            && ScoringsOk(raws, scorings + [sc])
  {
    var result := FraudScorer.Score(sc.raw, SlidingWindow.Total(sc.win));
    SlidingWindow.AdmitFacts(before, sc.raw.id, sc.raw.amount, sc.at, span);
    FraudScorer.ExactDecision(sc.raw, SlidingWindow.Total(sc.win));
    WorkGroup(raw, g, p, Handled);
    ScoreScorer(raw, g, p, if result.Evaluated? then Ready(result.tx) else Handled, sc, scored, scorings);
  }

  lemma ScoreScorer(
    raw: Topic<RawTx>, g: seq<Consumer>, p: nat, work: Work, sc: Scoring,
    scored: Topic<ScoredTx>, scorings: seq<Scoring>)
    requires ScorerOk(raw, g, scored) && ScoredOk(scorings, g, scored) && Working(raw, g, p)
    requires sc.raw == Current(raw, g, p)
    requires (work.Ready? && Gives(sc, work.result)) || (work.Handled? && sc.raw.amount > 1_000_000)
    ensures ScorerOk(raw, SetWork(g, p, work), scored) && ScoredOk(scorings + [sc], SetWork(g, p, work), scored)
  {
    WorkGroup(raw, g, p, work);
    ScoringsGrow(scorings, sc, g, scored);
  }

  lemma ScoringsGrow(scorings: seq<Scoring>, sc: Scoring, g: seq<Consumer>, scored: Topic<ScoredTx>)
    requires ScoredOk(scorings, g, scored)
    ensures ScoredOk(scorings + [sc], g, scored)
    ensures forall m :: Gives(sc, m) ==> FromScoring(scorings + [sc], m)
  {
    var all := scorings + [sc];
    assert all[|scorings|] == sc;
    forall m | FromScoring(scorings, m) ensures FromScoring(all, m) {
      var k :| 0 <= k < |scorings| && Gives(scorings[k], m);
      assert all[k] == scorings[k];
    }
  }

  lemma ScoreLedger(start: map<AccountId, int>, s: State, sc: Scoring)
    requires LedgerOk(start, Raws(s.rows), s.scorings, s.ledger)
    ensures LedgerOk(start, Raws(s.rows), s.scorings + [sc], s.ledger)
  {
    forall x | x in s.ledger.transactions && s.ledger.transactions[x].Completed?
      ensures exists k :: ApprovedAt(s.scorings + [sc], x, k)
    {
      var k :| ApprovedAt(s.scorings, x, k);
      assert ApprovedAt(s.scorings + [sc], x, k);
    }
  }

  lemma SendScoredKeeps(start: map<AccountId, int>, s: State, step: Step)
    requires Inv(start, s) && step.SendScored? && Enabled(s, step)
    ensures Inv(start, Next(s, step))
  {
    hide RowsOk, RawOk, ScorerOk, ScoredOk, ScoringsOk, LedgerOk, SettledOk, UpdaterOk, StatusesOk, GroupOk,
      IsHandled, InLog, Append;
    SendScorer(s.raw, s.scorer, step.p, step.q, s.scored, s.scorings);
    AppendGroup(s.scored, s.poster, step.q, s.scorer[step.p].work.result);
  }

  lemma SendScorer(
    raw: Topic<RawTx>, g: seq<Consumer>, p: nat, q: nat, scored: Topic<ScoredTx>, scorings: seq<Scoring>)
    requires ScorerOk(raw, g, scored) && ScoredOk(scorings, g, scored)
    requires p < |g| && g[p].work.Ready? && q < |scored|
    ensures var scored' := Append(scored, q, g[p].work.result);
            ScorerOk(raw, SetWork(g, p, Handled), scored') && ScoredOk(scorings, SetWork(g, p, Handled), scored')
  {
    hide SlidingWindow.Total, FraudScorer.Score, Gives, IsHandled, InLog, GroupOk;
    var m := g[p].work.result;
    var scored' := Append(scored, q, m);
    AppendFacts(scored, q, m);
    WorkGroup(raw, g, p, Handled);
    forall tx | HasScored(scored, tx) ensures HasScored(scored', tx) {
      var r :| InLog(scored, r) && r.raw == tx;
      assert InLog(scored', r);
    }
    assert HasScored(scored', m.raw);
  }

  lemma PostKeeps(start: map<AccountId, int>, s: State, step: Step)
    requires Inv(start, s) && step.Post? && Enabled(s, step)
    ensures Inv(start, Next(s, step))
  {
    hide RowsOk, RawOk, ScorerOk, ScoringsOk, SettledOk, UpdaterOk, StatusesOk, GroupOk, Sound, Provenance,
      Attempt, Apply;
    var tx := Current(s.scored, s.poster, step.p);
    assert InLog(s.scored, tx) by { WorkGroup(s.scored, s.poster, step.p, Handled); }
    if Attempt(s.ledger, tx) == WidthFault {
      Kafka.RestartGroup(s.scored, s.poster, step.p);
    } else {
      PostPoster(start, s.scored, s.poster, step.p, s.ledger);
      PostLedger(start, Raws(s.rows), s.scorings, s.ledger, tx);
      PostSays(s, tx);
    }
  }

  lemma PostPoster(
    start: map<AccountId, int>, scored: Topic<ScoredTx>, poster: seq<Consumer>, p: nat, ledger: Ledger)
    requires Sound(start, ledger) && PosterOk(scored, poster, ledger) && Working(scored, poster, p)
    requires Attempt(ledger, Current(scored, poster, p)) != WidthFault
    ensures PosterOk(scored, SetWork(poster, p, Handled), Apply(ledger, Current(scored, poster, p)))
  {
    WorkGroup(scored, poster, p, Handled);
    SwallowsOnlyDuplicates(start, ledger, Current(scored, poster, p));
  }

  /** What the ledger records comes from an accepted transaction that was scored. */
  lemma PostLedger(
    start: map<AccountId, int>, raws: map<TxId, RawTx>, scorings: seq<Scoring>, ledger: Ledger, tx: ScoredTx)
    requires LedgerOk(start, raws, scorings, ledger) && ScoringsOk(raws, scorings) && FromScoring(scorings, tx)
    ensures LedgerOk(start, raws, scorings, Apply(ledger, tx))
  {
    StepSound(start, ledger, tx);
    var k :| 0 <= k < |scorings| && Gives(scorings[k], tx);
    GivesFacts(scorings[k], tx);
    PostProvenance(raws, scorings, ledger, tx, k);
  }

  lemma PostProvenance(raws: map<TxId, RawTx>, scorings: seq<Scoring>, ledger: Ledger, tx: ScoredTx, k: nat)
    requires Provenance(raws, scorings, ledger) && k < |scorings|
    requires tx.raw == scorings[k].raw && Genuine(raws, tx.raw) && tx.raw.amount <= 1_000_000
    requires tx.decision.DecisionApproved? <==> Approves(scorings[k])
    ensures Provenance(raws, scorings, Apply(ledger, tx))
  {
    var l := Apply(ledger, tx);
    forall x | x in l.transactions && l.transactions[x].Completed? ensures exists j :: ApprovedAt(scorings, x, j) {
      if x in ledger.transactions {
        assert ledger.transactions[x].Completed?;
      } else {
        assert ApprovedAt(scorings, x, k);
      }
    }
  }

  lemma GivesFacts(sc: Scoring, m: ScoredTx)
    requires Gives(sc, m) && SlidingWindow.Entry(sc.raw.id, sc.raw.amount, sc.at) in sc.win
    ensures m.raw == sc.raw && m.raw.amount <= 1_000_000
    ensures m.decision.DecisionApproved? <==> Approves(sc)
  {
    SlidingWindow.TotalCovers(sc.win, SlidingWindow.Entry(sc.raw.id, sc.raw.amount, sc.at));
    FraudScorer.ExactDecision(sc.raw, SlidingWindow.Total(sc.win));
  }

  lemma PostSays(s: State, tx: ScoredTx)
    requires SettledOk(s.ledger, s.settling, s.settled) && StatusesOk(s.rows, s.ledger)
    ensures SettledOk(Apply(s.ledger, tx), s.settling, s.settled) && StatusesOk(s.rows, Apply(s.ledger, tx))
  {
    var l := Apply(s.ledger, tx);
    assert s.ledger.outbox <= l.outbox;
    forall e | Says(s.ledger, e) ensures Says(l, e) {
      var i :| 0 <= i < |s.ledger.outbox| && s.ledger.outbox[i].event == e;
      assert l.outbox[i].event == e;
    }
    SameStatuses(s.rows, s.ledger, l);
  }

  lemma PublishSettledKeeps(start: map<AccountId, int>, s: State, step: Step)
    requires Inv(start, s) && step.PublishSettled? && Enabled(s, step)
    ensures Inv(start, Next(s, step))
  {
    hide RowsOk, RawOk, ScorerOk, ScoredOk, ScoringsOk, PosterOk, LedgerOk, SettledOk, UpdaterOk, StatusesOk,
      GroupOk, IsHandled, InLog, Append;
    PublishEvent(s.ledger, s.settling, s.settled, step.i, step.p);
    PublishUpdater(s.settled, s.updater, s.rows, step.p, s.ledger.outbox[step.i].event);
    AppendGroup(s.settled, s.refunder, step.p, s.ledger.outbox[step.i].event);
  }

  lemma PublishEvent(l: Ledger, settling: set<nat>, settled: Topic<Settled>, i: nat, p: nat)
    requires SettledOk(l, settling, settled) && i < |l.outbox| && p < |settled|
    ensures SettledOk(l, settling + {i}, Append(settled, p, l.outbox[i].event))
  {
    AppendFacts(settled, p, l.outbox[i].event);
    assert Says(l, l.outbox[i].event);
  }

  lemma PublishUpdater(settled: Topic<Settled>, updater: seq<Consumer>, rows: map<TxId, TxRow>, p: nat, e: Settled)
    requires UpdaterOk(settled, updater, rows) && p < |settled|
    ensures UpdaterOk(Append(settled, p, e), updater, rows)
  {
    AppendGroup(settled, updater, p, e);
  }

  lemma ConfirmSettledKeeps(start: map<AccountId, int>, s: State, step: Step)
    requires Inv(start, s) && (step.ConfirmSettled? || step.DropSettled?) && Enabled(s, step)
    ensures Inv(start, Next(s, step))
  {
    hide RowsOk, RawOk, ScorerOk, ScoredOk, ScoringsOk, SettledOk, UpdaterOk, StatusesOk, Sound, Provenance,
      GroupOk;
    var t := Next(s, step);
    assert |t.ledger.outbox| == |s.ledger.outbox|;
    assert forall i :: 0 <= i < |t.ledger.outbox| ==> t.ledger.outbox[i].event == s.ledger.outbox[i].event;
    SameEvents(start, s.ledger, t.ledger);
    SameProvenance(Raws(s.rows), s.scorings, s.ledger, t.ledger);
    MarkedAreSettled(s.ledger, s.settling, s.settled, step.done);
    SameStatuses(s.rows, s.ledger, t.ledger);
  }

  lemma SameProvenance(raws: map<TxId, RawTx>, scorings: seq<Scoring>, l: Ledger, l': Ledger)
    requires Provenance(raws, scorings, l) && l'.transactions == l.transactions && |l'.outbox| == |l.outbox|
    requires forall i :: 0 <= i < |l.outbox| ==> l'.outbox[i].event == l.outbox[i].event
    ensures Provenance(raws, scorings, l')
  {
  }

  lemma MarkedAreSettled(l: Ledger, settling: set<nat>, settled: Topic<Settled>, done: set<nat>)
    requires SettledOk(l, settling, settled) && done <= settling
    ensures SettledOk(l, settling - done, settled)
    ensures SettledOk(l.(outbox := OutboxRelay.MarkProcessed(l.outbox, done)), settling - done, settled)
  {
    var l' := l.(outbox := OutboxRelay.MarkProcessed(l.outbox, done));
    forall e | Says(l, e) ensures Says(l', e) {
      var i :| 0 <= i < |l.outbox| && l.outbox[i].event == e;
      assert l'.outbox[i].event == e;
    }
  }

  lemma SameStatuses(rows: map<TxId, TxRow>, l: Ledger, l': Ledger)
    requires StatusesOk(rows, l) && |l.outbox| <= |l'.outbox|
    requires forall i :: 0 <= i < |l.outbox| ==> l'.outbox[i].event == l.outbox[i].event
    ensures StatusesOk(rows, l')
  {
    forall e | Says(l, e) ensures Says(l', e) {
      var i :| 0 <= i < |l.outbox| && l.outbox[i].event == e;
      assert l'.outbox[i].event == e;
    }
    forall x | x in rows ensures StatusOk(l', rows[x]) {
      assert StatusOk(l, rows[x]);
    }
  }

  /** The ledger's invariants do not look at the sent flags of its outbox. */
  lemma SameEvents(start: map<AccountId, int>, l: Ledger, l': Ledger)
    requires Sound(start, l) && l' == l.(outbox := l'.outbox) && |l'.outbox| == |l.outbox|
    requires forall i :: 0 <= i < |l.outbox| ==> l'.outbox[i].event == l.outbox[i].event
    ensures Sound(start, l')
  {
    hide BooksAgree, BalancesBounded, OneEventEach, PairedEntries, AmountsMatch;
    SameBooks(start, l, l');
    SameOneEvent(l, l');
    SamePairs(l, l');
    SameAmounts(l, l');
  }

  lemma SameBooks(start: map<AccountId, int>, l: Ledger, l': Ledger)
    requires BooksAgree(start, l) && BalancesBounded(start, l) && l'.balances == l.balances && l'.entries == l.entries
    ensures BooksAgree(start, l') && BalancesBounded(start, l')
  {
    hide Sum, Positive, Net, Booked, CheckHolds;
  }

  lemma SameOneEvent(l: Ledger, l': Ledger)
    requires OneEventEach(l) && l'.transactions == l.transactions && |l'.outbox| == |l.outbox|
    requires forall i :: 0 <= i < |l.outbox| ==> l'.outbox[i].event == l.outbox[i].event
    ensures OneEventEach(l')
  {
    hide ReasonMatches;
    forall x | x in l'.transactions ensures exists i :: EventAt(l', x, i) {
      var i :| EventAt(l, x, i);
      assert EventAt(l', x, i);
    }
  }

  lemma SameAmounts(l: Ledger, l': Ledger)
    requires AmountsMatch(l) && l'.entries == l.entries && |l'.outbox| == |l.outbox|
    requires forall i :: 0 <= i < |l.outbox| ==> l'.outbox[i].event == l.outbox[i].event
    ensures AmountsMatch(l')
  {
  }

  lemma SamePairs(l: Ledger, l': Ledger)
    requires PairedEntries(l) && l'.transactions == l.transactions && l'.entries == l.entries
    ensures PairedEntries(l')
  {
    forall x | x in l'.transactions && l'.transactions[x].Completed? ensures exists i :: PairAt(l', x, i) {
      var i :| PairAt(l, x, i);
      assert PairAt(l', x, i);
    }
  }

  lemma UpdateKeeps(start: map<AccountId, int>, s: State, step: Step)
    requires Inv(start, s) && step.Update? && Enabled(s, step)
    ensures Inv(start, Next(s, step))
  {
    hide RawOk, ScorerOk, ScoredOk, ScoringsOk, PosterOk, UpdaterOk, StatusesOk, GroupOk, IsHandled, InLog,
      Overwrite, Provenance, OneEventEach, BooksAgree, BalancesBounded, PairedEntries, AmountsMatch;
    var e := Current(s.settled, s.updater, step.p);
    SaysKnown(Raws(s.rows), s.scorings, s.ledger);
    UpdateParts(s.rows, s.ledger, s.settled, s.updater, step.p);
  }

  /** Whatever the ledger says is about an accepted transaction. */
  lemma SaysKnown(raws: map<TxId, RawTx>, scorings: seq<Scoring>, ledger: Ledger)
    requires Provenance(raws, scorings, ledger)
    ensures forall e :: Says(ledger, e) ==>
              e.tx in raws && e.sender == raws[e.tx].sender && e.amount == raws[e.tx].amount
  {
  }

  lemma UpdateParts(
    rows: map<TxId, TxRow>, ledger: Ledger, settled: Topic<Settled>, updater: seq<Consumer>, p: nat)
    requires OneEventEach(ledger) && (forall e :: InLog(settled, e) ==> Says(ledger, e))
    requires forall e :: Says(ledger, e) ==> e.tx in Raws(rows)
    requires StatusesOk(rows, ledger) && UpdaterOk(settled, updater, rows) && Working(settled, updater, p)
    ensures var rows' := Overwrite(rows, Current(settled, updater, p));
            && Raws(rows') == Raws(rows) && StatusesOk(rows', ledger)
            && UpdaterOk(settled, SetWork(updater, p, Handled), rows')
  {
    var e := Current(settled, updater, p);
    assert InLog(settled, e) by { WorkGroup(settled, updater, p, Handled); }
    assert e.tx in Raws(rows);
    UpdateStatuses(rows, ledger, e);
    UpdateShows(ledger, settled, updater, p, rows);
  }

  lemma UpdateStatuses(rows: map<TxId, TxRow>, ledger: Ledger, e: Settled)
    requires StatusesOk(rows, ledger) && Says(ledger, e)
    ensures StatusesOk(Overwrite(rows, e), ledger)
  {
    var rows' := Overwrite(rows, e);
    forall x | x in rows' ensures rows'[x].raw.id == x && StatusOk(ledger, rows'[x]) {
      assert x != e.tx ==> rows'[x] == rows[x];
    }
  }

  lemma UpdateShows(
    ledger: Ledger, settled: Topic<Settled>, updater: seq<Consumer>, p: nat, rows: map<TxId, TxRow>)
    requires OneEventEach(ledger) && (forall e :: InLog(settled, e) ==> Says(ledger, e))
    requires UpdaterOk(settled, updater, rows) && Working(settled, updater, p)
    requires Current(settled, updater, p).tx in rows
    ensures UpdaterOk(settled, SetWork(updater, p, Handled), Overwrite(rows, Current(settled, updater, p)))
  {
    var e := Current(settled, updater, p);
    WorkGroup(settled, updater, p, Handled);
    forall f | IsHandled(settled, SetWork(updater, p, Handled), f) ensures Shows(Overwrite(rows, e), f) {
      if IsHandled(settled, updater, f) && f.tx == e.tx {
        var q, i :| HandledAt(settled, updater, q, i, f);
        assert At(settled, q, i, f) && InLog(settled, f);
        OneVerdict(ledger, e, f);
      }
    }
  }

  /** The unguarded overwrite writes the ledger's verdict: over PENDING, or over itself. */
  lemma UpdateInPlace(rows: map<TxId, TxRow>, ledger: Ledger, e: Settled)
    requires OneEventEach(ledger) && StatusesOk(rows, ledger) && Says(ledger, e) && e.tx in rows
    ensures rows[e.tx].status != Pending ==> Overwrite(rows, e) == rows
    ensures Overwrite(rows, e) == rows[e.tx := TxRow(rows[e.tx].raw, e.status, e.reason)]
  {
    assert StatusOk(ledger, rows[e.tx]);
    if rows[e.tx].status != Pending {
      var f :| Says(ledger, f) && f.tx == e.tx && rows[e.tx].status == f.status && rows[e.tx].reason == f.reason;
      OneVerdict(ledger, e, f);
    }
  }

  lemma RefundKeeps(start: map<AccountId, int>, s: State, step: Step)
    requires Inv(start, s) && step.Refund? && Enabled(s, step)
    ensures Inv(start, Next(s, step))
  {
    hide RowsOk, RawOk, ScorerOk, ScoredOk, ScoringsOk, PosterOk, LedgerOk, SettledOk, UpdaterOk, StatusesOk,
      IsHandled, InLog, SlidingWindow.Remove;
    WorkGroup(s.settled, s.refunder, step.p, Handled);
  }

  lemma ExpireKeeps(start: map<AccountId, int>, s: State, step: Step)
    requires Inv(start, s) && step.ExpireKey? && Enabled(s, step)
    ensures Inv(start, Next(s, step))
  {
    hide RowsOk, RawOk, ScorerOk, ScoredOk, ScoringsOk, PosterOk, LedgerOk, SettledOk, UpdaterOk, StatusesOk,
      GroupOk;
  }

  lemma StepKeepsInv(start: map<AccountId, int>, s: State, step: Step)
    requires Inv(start, s) && Enabled(s, step)
    ensures Inv(start, Next(s, step))
  {
    hide Inv, Next, Enabled;
    match step
    case Submit(_) => SubmitKeeps(start, s, step);
    case Publish(_, _) => PublishKeeps(start, s, step);
    case Confirm(_) => ConfirmKeeps(start, s, step);
    case Drop(_) => ConfirmKeeps(start, s, step);
    case FetchNext(_, _) => ConsumerKeeps(start, s, step);
    case AckCurrent(_, _) => ConsumerKeeps(start, s, step);
    case RestartGroup(_, _) => ConsumerKeeps(start, s, step);
    case Score(_, _) => ScoreKeeps(start, s, step);
    case SendScored(_, _) => SendScoredKeeps(start, s, step);
    case Post(_) => PostKeeps(start, s, step);
    case PublishSettled(_, _) => PublishSettledKeeps(start, s, step);
    case ConfirmSettled(_) => ConfirmSettledKeeps(start, s, step);
    case DropSettled(_) => ConfirmSettledKeeps(start, s, step);
    case Update(_) => UpdateKeeps(start, s, step);
    case Refund(_) => RefundKeeps(start, s, step);
    case ExpireKey(_, _) => ExpireKeeps(start, s, step);
  }

  lemma InitInv(c: Config)
    requires Startable(c.start)
    ensures Inv(c.start, Init(c))
  {
    hide Sound, FraudScorer.Score, Gives, Approves, Working;
    FreshSound(c.start);
  }

  lemma {:induction false} RunKeepsInv(start: map<AccountId, int>, s: State, steps: seq<Step>, t: State)
    requires Inv(start, s) && Runs(s, steps, t)
    ensures Inv(start, t)
    decreases |steps|
  {
    if steps != [] {
      StepKeepsInv(start, s, steps[0]);
      RunKeepsInv(start, Next(s, steps[0]), steps[1..], t);
    }
  }

  lemma ReachableInv(c: Config, s: State)
    requires Startable(c.start) && Reachable(c, s)
    ensures Inv(c.start, s)
  {
    InitInv(c);
    var steps :| Runs(Init(c), steps, s);
    RunKeepsInv(c.start, Init(c), steps, s);
  }
}
