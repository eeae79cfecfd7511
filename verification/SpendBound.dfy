/**
 * What the sliding windows, the scorer and the ledger guarantee together: a bound on what one sender
 * can have completed within any window, despite redelivery, re-scoring and concurrent rollbacks.
 */
module SpendBound {
  import opened Common
  import opened Kafka
  import opened Ledger
  import opened LedgerInvariants
  import opened Pipeline
  import opened PipelineInvariant
  import FraudScorer
  import OutboxRelay
  import opened Settlement
  import SlidingWindow

  /** The ledger's verdict on `x` gives its velocity back. */
  predicate Refunded(verdicts: map<TxId, TxStatus>, x: TxId) {
    x in verdicts && (verdicts[x] == Rejected || verdicts[x] == Blocked)
  }

  /** The window holds the member of `tx`, added at `at` or later. */
  predicate Holds(win: seq<SlidingWindow.Entry>, tx: RawTx, at: nat) {
    exists i :: 0 <= i < |win| && win[i].id == tx.id && win[i].amount == tx.amount && win[i].at >= at
  }

  /** Every scoring still inside the window and not refunded is held by its sender's sorted set. */
  ghost predicate WindowsOk(
    windows: map<AccountId, seq<SlidingWindow.Entry>>, clock: nat, span: nat, scorings: seq<Scoring>,
    verdicts: map<TxId, TxStatus>)
  {
    forall k :: 0 <= k < |scorings| ==>
      var sc := scorings[k];
      sc.at + span > clock && !Refunded(verdicts, sc.raw.id) ==>
        sc.raw.sender in windows && Holds(windows[sc.raw.sender], sc.raw, sc.at)
  }

  /** Scorings are in time order, and a key lives at least a window beyond each of them. */
  ghost predicate TimesOk(scorings: seq<Scoring>, clock: nat, span: nat, deadlines: map<AccountId, nat>) {
    && (forall k :: 0 <= k < |scorings| ==>
          && scorings[k].at <= clock
          && scorings[k].raw.sender in deadlines && scorings[k].at + span <= deadlines[scorings[k].raw.sender])
    && (forall j, k :: 0 <= j < k < |scorings| ==> scorings[j].at <= scorings[k].at)
  }

  /** The window a scoring saw held every earlier scoring of the sender in range and not refunded since. */
  ghost predicate SeenOk(scorings: seq<Scoring>, span: nat, verdicts: map<TxId, TxStatus>) {
    forall j, k :: 0 <= j <= k < |scorings| && scorings[j].raw.sender == scorings[k].raw.sender
                   && scorings[j].at + span > scorings[k].at && !Refunded(verdicts, scorings[j].raw.id) ==>
      Holds(scorings[k].win, scorings[j].raw, 0)
  }

  ghost predicate SpendInv(s: State) {
    && 0 < s.span
    && WindowsOk(s.windows, s.clock, s.span, s.scorings, s.ledger.transactions)
    && TimesOk(s.scorings, s.clock, s.span, s.deadlines)
    && SeenOk(s.scorings, s.span, s.ledger.transactions)
  }

  // ---------------------------------------------------------------------------------------------
  // One step
  // ---------------------------------------------------------------------------------------------

  /** What survives the prune of a scoring is still held, the new member included. */
  lemma AdmitHolds(w: seq<SlidingWindow.Entry>, tx: RawTx, at: nat, added: RawTx, now: nat, span: nat)
    requires Holds(w, tx, at) && at + span > now && at <= now
    ensures Holds(SlidingWindow.Admit(w, added.id, added.amount, now, span), tx, at)
  {
    var i :| 0 <= i < |w| && w[i].id == tx.id && w[i].amount == tx.amount && w[i].at >= at;
    var r := SlidingWindow.Admit(w, added.id, added.amount, now, span);
    SlidingWindow.AdmitFacts(w, added.id, added.amount, now, span);
    var same := tx.id == added.id && tx.amount == added.amount;
    var e := if same then SlidingWindow.Entry(added.id, added.amount, now) else w[i];
    assert w[i] in w && e in r;
    var j :| 0 <= j < |r| && r[j] == e;
  }

  lemma AdmitHoldsNew(w: seq<SlidingWindow.Entry>, added: RawTx, now: nat, span: nat)
    ensures Holds(SlidingWindow.Admit(w, added.id, added.amount, now, span), added, now)
  {
    var r := SlidingWindow.Admit(w, added.id, added.amount, now, span);
    SlidingWindow.AdmitFacts(w, added.id, added.amount, now, span);
    var j :| 0 <= j < |r| && r[j] == SlidingWindow.Entry(added.id, added.amount, now);
  }

  lemma ScoreKeeps(s: State, step: Step)
    requires SpendInv(s) && step.Score? && Enabled(s, step)
    ensures SpendInv(Next(s, step))
  {
    hide WindowsOk, SeenOk, Holds, FraudScorer.Score, SlidingWindow.Total, SlidingWindow.Admit;
    var t := Next(s, step);
    var sc := t.scorings[|s.scorings|];
    ScoreHolds(s.windows, s.clock, s.span, s.scorings, s.ledger.transactions, sc);
    ScoreWindows(s.windows, s.clock, s.span, s.scorings, s.ledger.transactions, sc);
    ScoreTimes(s.scorings, s.clock, s.span, s.deadlines, sc);
    ScoreSeen(s.scorings, sc, s.span, s.ledger.transactions);
  }

  /** The window after a scoring holds it and every earlier scoring still in range. */
  lemma ScoreHolds(
    windows: map<AccountId, seq<SlidingWindow.Entry>>, clock: nat, span: nat, scorings: seq<Scoring>,
    verdicts: map<TxId, TxStatus>, sc: Scoring)
    requires WindowsOk(windows, clock, span, scorings, verdicts) && clock <= sc.at
    requires forall k :: 0 <= k < |scorings| ==> scorings[k].at <= clock
    requires var w := if sc.raw.sender in windows then windows[sc.raw.sender] else [];
             sc.win == SlidingWindow.Admit(w, sc.raw.id, sc.raw.amount, sc.at, span)
    ensures Holds(sc.win, sc.raw, sc.at)
    ensures forall k :: 0 <= k < |scorings| && scorings[k].raw.sender == sc.raw.sender
                        && scorings[k].at + span > sc.at && !Refunded(verdicts, scorings[k].raw.id) ==>
              Holds(sc.win, scorings[k].raw, scorings[k].at)
  {
    var w := if sc.raw.sender in windows then windows[sc.raw.sender] else [];
    AdmitHoldsNew(w, sc.raw, sc.at, span);
    forall k | 0 <= k < |scorings| && scorings[k].raw.sender == sc.raw.sender
               && scorings[k].at + span > sc.at && !Refunded(verdicts, scorings[k].raw.id)
      ensures Holds(sc.win, scorings[k].raw, scorings[k].at)
    {
      AdmitHolds(w, scorings[k].raw, scorings[k].at, sc.raw, sc.at, span);
    }
  }

  lemma ScoreWindows(
    windows: map<AccountId, seq<SlidingWindow.Entry>>, clock: nat, span: nat, scorings: seq<Scoring>,
    verdicts: map<TxId, TxStatus>, sc: Scoring)
    requires WindowsOk(windows, clock, span, scorings, verdicts) && clock <= sc.at && Holds(sc.win, sc.raw, sc.at)
    requires forall k :: 0 <= k < |scorings| && scorings[k].raw.sender == sc.raw.sender
                         && scorings[k].at + span > sc.at && !Refunded(verdicts, scorings[k].raw.id) ==>
               Holds(sc.win, scorings[k].raw, scorings[k].at)
    ensures WindowsOk(windows[sc.raw.sender := sc.win], sc.at, span, scorings + [sc], verdicts)
  {
  }

  lemma ScoreTimes(scorings: seq<Scoring>, clock: nat, span: nat, deadlines: map<AccountId, nat>, sc: Scoring)
    requires TimesOk(scorings, clock, span, deadlines) && clock <= sc.at
    ensures TimesOk(scorings + [sc], sc.at, span, deadlines[sc.raw.sender := sc.at + span])
  {
  }

  lemma ScoreSeen(scorings: seq<Scoring>, sc: Scoring, span: nat, verdicts: map<TxId, TxStatus>)
    requires SeenOk(scorings, span, verdicts) && Holds(sc.win, sc.raw, sc.at)
    requires forall k :: 0 <= k < |scorings| && scorings[k].raw.sender == sc.raw.sender
                         && scorings[k].at + span > sc.at && !Refunded(verdicts, scorings[k].raw.id) ==>
               Holds(sc.win, scorings[k].raw, scorings[k].at)
    ensures SeenOk(scorings + [sc], span, verdicts)
  {
    var all := scorings + [sc];
    forall j, k | 0 <= j <= k < |all| && all[j].raw.sender == all[k].raw.sender
                  && all[j].at + span > all[k].at && !Refunded(verdicts, all[j].raw.id)
      ensures Holds(all[k].win, all[j].raw, 0)
    {
      if k < |scorings| {
        assert all[j] == scorings[j] && all[k] == scorings[k];
      } else {
        assert Holds(sc.win, all[j].raw, all[j].at);
      }
    }
  }

  /** A recorded verdict is final, so a refund is never taken back. */
  lemma PostKeeps(s: State, step: Step)
    requires SpendInv(s) && step.Post? && Enabled(s, step)
    ensures SpendInv(Next(s, step))
  {
    hide Holds, Attempt, Apply, TimesOk;
    var tx := Current(s.scored, s.poster, step.p);
    forall x | Refunded(s.ledger.transactions, x) ensures Refunded(Apply(s.ledger, tx).transactions, x) {
      VerdictsAreFinal(s.ledger, tx, x);
    }
  }

  /** A rollback only ever removes a member whose transaction the ledger refused. */
  lemma RefundKeeps(s: State, step: Step)
    requires SpendInv(s) && step.Refund? && Enabled(s, step)
    requires OneEventEach(s.ledger) && Says(s.ledger, Current(s.settled, s.refunder, step.p))
    ensures SpendInv(Next(s, step))
  {
    hide OneEventEach, Says, SlidingWindow.Remove, TimesOk, SeenOk, Holds;
    var t, e := Next(s, step), Current(s.settled, s.refunder, step.p);
    OneVerdict(s.ledger, e, e);
    if e.Refunds() && e.sender in s.windows {
      assert Refunded(s.ledger.transactions, e.tx);
      forall k | 0 <= k < |s.scorings| && s.scorings[k].at + s.span > s.clock
                 && !Refunded(s.ledger.transactions, s.scorings[k].raw.id)
        ensures s.scorings[k].raw.sender in t.windows
        ensures Holds(t.windows[s.scorings[k].raw.sender], s.scorings[k].raw, s.scorings[k].at)
      {
        var sc := s.scorings[k];
        if sc.raw.sender == e.sender {
          RemoveHolds(s.windows[e.sender], sc.raw, sc.at, e.tx, e.amount);
        }
      }
    }
  }

  lemma RemoveHolds(w: seq<SlidingWindow.Entry>, tx: RawTx, at: nat, id: TxId, amount: nat)
    requires Holds(w, tx, at) && id != tx.id
    ensures Holds(SlidingWindow.Remove(w, id, amount), tx, at)
  {
    var i :| 0 <= i < |w| && w[i].id == tx.id && w[i].amount == tx.amount && w[i].at >= at;
    var r := SlidingWindow.Remove(w, id, amount);
    assert w[i] in w && w[i] in r;
    var j :| 0 <= j < |r| && r[j] == w[i];
  }

  lemma StepKeeps(start: map<AccountId, int>, s: State, step: Step)
    requires Inv(start, s) && SpendInv(s) && Enabled(s, step)
    ensures SpendInv(Next(s, step))
  {
    if step.Refund? {
      RefundIsSaid(start, s, step.p);
      RefundKeeps(s, step);
    } else {
      OtherKeeps(s, step);
    }
  }

  lemma RefundIsSaid(start: map<AccountId, int>, s: State, p: nat)
    requires Inv(start, s) && Enabled(s, Refund(p))
    ensures OneEventEach(s.ledger) && Says(s.ledger, Current(s.settled, s.refunder, p))
  {
    WorkGroup(s.settled, s.refunder, p, Handled);
  }

  /** Every step but a scoring, a posting, a refund and an expiry leaves windows, times and verdicts alone. */
  lemma QuietKeeps(s: State, step: Step)
    requires SpendInv(s) && Enabled(s, step)
    requires !step.Score? && !step.Post? && !step.Refund? && !step.ExpireKey?
    ensures SpendInv(Next(s, step))
  {
    hide WindowsOk, TimesOk, SeenOk, Overwrite, OutboxRelay.MarkProcessed, Fetch, SetWork, Ack, Restart,
      Append;
  }

  lemma ExpiryKeeps(s: State, step: Step)
    requires SpendInv(s) && Enabled(s, step) && step.ExpireKey?
    ensures SpendInv(Next(s, step))
  {
    hide WindowsOk, TimesOk, SeenOk;
    ExpireKeeps(s.windows, s.clock, s.span, s.scorings, s.ledger.transactions, s.deadlines, step.account, step.now);
  }

  lemma OtherKeeps(s: State, step: Step)
    requires SpendInv(s) && Enabled(s, step) && !step.Refund?
    ensures SpendInv(Next(s, step))
  {
    hide SpendInv, Enabled, Next;
    match step
    case Score(_, _) => ScoreKeeps(s, step);
    case Post(_) => PostKeeps(s, step);
    case ExpireKey(_, _) => ExpiryKeeps(s, step);
    case _ => QuietKeeps(s, step);
  }

  /** A key is only dropped when every scoring it stands for has left the window. */
  lemma ExpireKeeps(
    windows: map<AccountId, seq<SlidingWindow.Entry>>, clock: nat, span: nat, scorings: seq<Scoring>,
    verdicts: map<TxId, TxStatus>, deadlines: map<AccountId, nat>, account: AccountId, now: nat)
    requires WindowsOk(windows, clock, span, scorings, verdicts) && TimesOk(scorings, clock, span, deadlines)
    requires clock <= now && account in deadlines && deadlines[account] <= now
    ensures WindowsOk(windows - {account}, now, span, scorings, verdicts) && TimesOk(scorings, now, span, deadlines)
  {
  }

  lemma InitSpend(c: Config)
    requires c.span > 0
    ensures SpendInv(Init(c))
  {
  }

  lemma {:induction false} RunKeeps(start: map<AccountId, int>, s: State, steps: seq<Step>, t: State)
    requires Inv(start, s) && SpendInv(s) && Runs(s, steps, t)
    ensures Inv(start, t) && SpendInv(t)
    decreases |steps|
  {
    hide Inv, SpendInv, Next, Enabled;
    if steps != [] {
      StepKeeps(start, s, steps[0]);
      StepKeepsInv(start, s, steps[0]);
      RunKeeps(start, Next(s, steps[0]), steps[1..], t);
    }
  }

  // ---------------------------------------------------------------------------------------------
  // The bound
  // ---------------------------------------------------------------------------------------------

  /** The sum of the amounts of a set of accepted transactions. */
  ghost function Spent(raws: map<TxId, RawTx>, txs: set<TxId>): int
    requires txs <= raws.Keys
  {
    if txs == {} then 0 else var x :| x in txs; raws[x].amount + Spent(raws, txs - {x})
  }

  lemma {:induction false} SpentPick(raws: map<TxId, RawTx>, txs: set<TxId>, x: TxId)
    requires txs <= raws.Keys && x in txs
    ensures Spent(raws, txs) == raws[x].amount + Spent(raws, txs - {x})
    decreases |txs|
  {
    var y :| y in txs && Spent(raws, txs) == raws[y].amount + Spent(raws, txs - {y});
    if y != x {
      SpentPick(raws, txs - {y}, x);
      SpentPick(raws, txs - {x}, y);
      assert txs - {y} - {x} == txs - {x} - {y};
    }
  }

  /** Distinct transactions held by a window add up to no more than its total. */
  lemma {:induction false} HeldSum(raws: map<TxId, RawTx>, txs: set<TxId>, win: seq<SlidingWindow.Entry>)
    requires txs <= raws.Keys
    requires forall x :: x in txs ==> raws[x].id == x && Holds(win, raws[x], 0)
    ensures Spent(raws, txs) <= SlidingWindow.Total(win)
    decreases |win|
  {
    if win == [] {
      assert forall x :: x in txs ==> Holds(win, raws[x], 0);
      assert txs == {};
    } else {
      var x := win[0].id;
      var rest := if x in txs && raws[x].amount == win[0].amount then txs - {x} else txs;
      forall y | y in rest ensures Holds(win[1..], raws[y], 0) {
        var i :| 0 <= i < |win| && win[i].id == raws[y].id && win[i].amount == raws[y].amount && win[i].at >= 0;
        assert i > 0;
        assert win[1..][i - 1] == win[i];
      }
      HeldSum(raws, rest, win[1..]);
      if rest != txs {
        SpentPick(raws, txs, x);
      }
    }
  }

  /** `picks` chooses an approving scoring of each transaction, all of one sender. */
  ghost predicate ApprovedBy(scorings: seq<Scoring>, sender: AccountId, picks: map<TxId, nat>) {
    forall x :: x in picks ==>
      ApprovedAt(scorings, x, picks[x]) && scorings[picks[x]].raw.sender == sender
  }

  ghost predicate AllCompleted(ledger: Ledger, txs: set<TxId>) {
    forall x :: x in txs ==> x in ledger.transactions && ledger.transactions[x].Completed?
  }

  lemma BoundAt(raws: map<TxId, RawTx>, s: State, sender: AccountId, picks: map<TxId, nat>, last: TxId)
    requires ScoringsOk(raws, s.scorings) && SeenOk(s.scorings, s.span, s.ledger.transactions)
    requires picks.Keys <= raws.Keys
    requires ApprovedBy(s.scorings, sender, picks) && AllCompleted(s.ledger, picks.Keys) && last in picks
    requires forall x :: x in picks ==>
               picks[x] <= picks[last] && s.scorings[picks[x]].at + s.span > s.scorings[picks[last]].at
    ensures Spent(raws, picks.Keys) <= FraudScorer.Limit(raws[last])
  {
    var sc := s.scorings[picks[last]];
    assert ApprovedAt(s.scorings, last, picks[last]);
    forall x | x in picks.Keys ensures raws[x].id == x && Holds(sc.win, raws[x], 0) {
      var j := picks[x];
      assert ApprovedAt(s.scorings, x, j);
      assert !Refunded(s.ledger.transactions, x);
      assert s.scorings[j].raw == raws[x];
    }
    HeldSum(raws, picks.Keys, sc.win);
    SlidingWindow.TotalCovers(sc.win, SlidingWindow.Entry(sc.raw.id, sc.raw.amount, sc.at));
    FraudScorer.ExactDecision(sc.raw, SlidingWindow.Total(sc.win));
  }

  /**
   * Spend bound: take any completed transactions of one sender and, for each, any scoring that
   * approved it. If those scoring times lie in one half-open window, the amounts sum to at most
   * 200,000 cents, and to at most 50,000 when the one scored last had no location.
   */
  lemma SpendIsBounded(c: Config, s: State, sender: AccountId, picks: map<TxId, nat>, last: TxId, from: nat)
    requires Startable(c.start) && c.span > 0 && Reachable(c, s)
    requires ApprovedBy(s.scorings, sender, picks) && AllCompleted(s.ledger, picks.Keys)
    requires last in picks && forall x :: x in picks ==> picks[x] <= picks[last]
    requires forall x :: x in picks ==> from <= s.scorings[picks[x]].at < from + c.span
    ensures picks.Keys <= Raws(s.rows).Keys
    ensures Spent(Raws(s.rows), picks.Keys) <= 200_000
    ensures !FraudScorer.Located(Raws(s.rows)[last]) ==> Spent(Raws(s.rows), picks.Keys) <= 50_000
  {
    hide Runs, WindowsOk, TimesOk, SeenOk, Spent, RowsOk, RawOk, ScorerOk, ScoredOk, PosterOk, LedgerOk,
      SettledOk, UpdaterOk, StatusesOk, Approves, FraudScorer.Score;
    InitInv(c);
    InitSpend(c);
    var steps :| Runs(Init(c), steps, s);
    RunKeeps(c.start, Init(c), steps, s);
    RunKeepsSpan(Init(c), steps, s);
    var raws := Raws(s.rows);
    forall x | x in picks ensures x in raws {
      assert ApprovedAt(s.scorings, x, picks[x]);
    }
    BoundAt(raws, s, sender, picks, last);
  }

  lemma StepKeepsSpan(s: State, step: Step)
    requires Enabled(s, step)
    ensures Next(s, step).span == s.span
  {
    hide FraudScorer.Score, Attempt, Apply, SlidingWindow.Admit, SlidingWindow.Remove,
      OutboxRelay.MarkProcessed, Overwrite, Fetch, SetWork, Ack, Restart, Append, Working, Fetchable;
  }

  lemma {:induction false} RunKeepsSpan(s: State, steps: seq<Step>, t: State)
    requires Runs(s, steps, t)
    ensures t.span == s.span
    decreases |steps|
  {
    hide Next, Enabled;
    if steps != [] {
      StepKeepsSpan(s, steps[0]);
      RunKeepsSpan(Next(s, steps[0]), steps[1..], t);
    }
  }

  /** Every completed transaction does have an approving scoring, so the bound covers all of them. */
  lemma CompletedWasApproved(c: Config, s: State, x: TxId)
    requires Startable(c.start) && Reachable(c, s)
    requires x in s.ledger.transactions && s.ledger.transactions[x].Completed?
    ensures exists k :: ApprovedAt(s.scorings, x, k)
  {
    ReachableInv(c, s);
  }
}
