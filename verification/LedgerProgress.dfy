/**
 * The workers do get done: whatever the locks, every call in flight can be carried to its commit, and the
 * commit does to the database what the call alone would do.
 */
module LedgerProgress {
  import opened Common
  import opened Ledger
  import opened LedgerInvariants
  import opened LedgerVerdicts
  import opened LedgerWorkers
  import opened LedgerDeadlock

  // ---------------------------------------------------------------------------------------------
  // The last step of a call
  // ---------------------------------------------------------------------------------------------

  /**
   * A commit settles its transaction exactly as described for a call alone, on the database as it is then;
   * the call is over, and no other call notices.
   */
  lemma CommitTakesEffect(start: map<AccountId, int>, s: State, w: WorkerId)
    requires Inv(start, s) && w in s.jobs && s.jobs[w].stage.Posted? && Fits(s.db, s.jobs[w].tx)
    ensures Enabled(s, Commit(w))
    ensures var tx, t := s.jobs[w].tx, Next(s, Commit(w));
            && tx.raw.id !in s.db.transactions && Settles(s.db, tx, t.db)
            && t.jobs == s.jobs - {w} && t.handled == s.handled + [tx]
  {
    hide Settles, Fits, Sound, Replay, AllRecorded, RowsOk, IdsOk, JobsOk, JobOk, Publish;
    var job := s.jobs[w];
    JobFacts(s, w);
    VerdictExactly(s.db, job.tx);
    CommitIsStep(s.db, job);
  }

  /**
   * The flush of a recorded transaction ends the call normally and changes nothing; any other flush holds
   * the id and is ready to commit.
   */
  lemma FlushTakesEffect(start: map<AccountId, int>, s: State, w: WorkerId)
    requires Inv(start, s) && Enabled(s, Flush(w))
    ensures var tx, t := s.jobs[w].tx, Next(s, Flush(w));
            && t.db == s.db
            && (if tx.raw.id in s.db.transactions then t.jobs == s.jobs - {w} && t.handled == s.handled + [tx]
                else
                  && w in t.jobs && t.jobs[w].stage.Posted? && t.jobs[w].tx == tx && t.handled == s.handled
                  && t.idLocks == s.idLocks[tx.raw.id := w])
  {
    hide Sound, Replay, AllRecorded, RowsOk, IdsOk, JobsOk, JobOk, ChecksHold;
    JobFacts(s, w);
    ChecksAlwaysHold(start, s.db, s.jobs[w]);
  }

  /** A worker may stop at any moment: the database is as before, and its locks are free. */
  lemma AbortLeavesTheDatabase(s: State, w: WorkerId)
    requires w in s.jobs
    ensures Enabled(s, Abort(w))
    ensures var t := Next(s, Abort(w));
            && t.db == s.db && t.jobs == s.jobs - {w} && t.handled == s.handled
            && (forall a :: a in t.rowLocks ==> t.rowLocks[a] != w)
            && (forall x :: x in t.idLocks ==> t.idLocks[x] != w)
  {
  }

  // ---------------------------------------------------------------------------------------------
  // Work left
  // ---------------------------------------------------------------------------------------------

  /** The rows a worker still has to lock, and then its decision, its flush and its commit. */
  function Rank(accounts: set<AccountId>, job: Job): nat {
    match job.stage
    case Locking => 3 + Missing(accounts, job, Low(job.tx.raw)) +
      (if Low(job.tx.raw) == High(job.tx.raw) then 0 else Missing(accounts, job, High(job.tx.raw)))
    case Flushing(_, _) => 2
    case Posted(_, _) => 1
  }

  function Missing(accounts: set<AccountId>, job: Job, row: AccountId): nat {
    if row in accounts && row !in job.read then 1 else 0
  }

  function Ranks(accounts: set<AccountId>, jobs: map<WorkerId, Job>): map<WorkerId, int> {
    map w | w in jobs :: Rank(accounts, jobs[w])
  }

  ghost function WorkLeft(s: State): int {
    Sum(Ranks(s.db.balances.Keys, s.jobs))
  }

  lemma WorkIsNatural(s: State)
    ensures WorkLeft(s) >= 0
  {
    SumNonNegative(Ranks(s.db.balances.Keys, s.jobs));
  }

  /** Only `w` moved: its work got less, or it is done. */
  lemma LessWork(s: State, t: State, w: WorkerId)
    requires w in s.jobs && t.db.balances.Keys == s.db.balances.Keys
    requires if w in t.jobs then t.jobs == s.jobs[w := t.jobs[w]] else t.jobs == s.jobs - {w}
    requires w in t.jobs ==> Rank(s.db.balances.Keys, t.jobs[w]) < Rank(s.db.balances.Keys, s.jobs[w])
    ensures WorkLeft(t) < WorkLeft(s)
  {
    hide Sum, Rank;
    var accounts := s.db.balances.Keys;
    var before := Ranks(accounts, s.jobs);
    RankIsPositive(accounts, s.jobs[w]);
    if w in t.jobs {
      assert Ranks(accounts, t.jobs) == before[w := Rank(accounts, t.jobs[w])];
      SumUpdate(before, w, Rank(accounts, t.jobs[w]));
    } else {
      assert Ranks(accounts, t.jobs) == before - {w};
      SumPick(before, w);
    }
  }

  lemma RankIsPositive(accounts: set<AccountId>, job: Job)
    ensures Rank(accounts, job) > 0
  {
  }

  // ---------------------------------------------------------------------------------------------
  // One step of work
  // ---------------------------------------------------------------------------------------------

  predicate Works(step: Step) {
    step.LockRow? || step.Decide? || step.Flush? || step.Commit?
  }

  /** The amounts of the calls in flight fit the entry column. */
  ghost predicate AmountsFit(jobs: map<WorkerId, Job>) {
    forall w :: w in jobs ==> FitsColumns(jobs[w].tx)
  }

  /** A working step moves one call on, or ends it with its transaction recorded. */
  ghost predicate MovesOn(s: State, t: State, w: WorkerId) {
    && w in s.jobs && t.db.balances.Keys == s.db.balances.Keys
    && s.db.transactions.Keys <= t.db.transactions.Keys
    && (if w in t.jobs then
          && t.jobs == s.jobs[w := t.jobs[w]] && t.jobs[w].tx == s.jobs[w].tx
          && Rank(s.db.balances.Keys, t.jobs[w]) < Rank(s.db.balances.Keys, s.jobs[w])
        else
          t.jobs == s.jobs - {w} && s.jobs[w].tx.raw.id in t.db.transactions)
  }

  lemma LockMovesOn(s: State, w: WorkerId)
    requires Enabled(s, LockRow(w))
    ensures MovesOn(s, Next(s, LockRow(w)), w)
  {
  }

  lemma DecideMovesOn(s: State, w: WorkerId)
    requires Enabled(s, Decide(w))
    ensures MovesOn(s, Next(s, Decide(w)), w)
  {
  }

  lemma FlushMovesOn(start: map<AccountId, int>, s: State, w: WorkerId)
    requires Inv(start, s) && Enabled(s, Flush(w))
    ensures MovesOn(s, Next(s, Flush(w)), w)
  {
    hide Sound, Replay, AllRecorded, RowsOk, IdsOk, JobsOk, JobOk, ChecksHold;
    JobFacts(s, w);
    ChecksAlwaysHold(start, s.db, s.jobs[w]);
  }

  lemma CommitMovesOn(start: map<AccountId, int>, s: State, w: WorkerId)
    requires Inv(start, s) && Enabled(s, Commit(w)) && FitsColumns(s.jobs[w].tx)
    requires Sum(Positive(start)) <= 9_223_372_036_854_775_807
    ensures MovesOn(s, Next(s, Commit(w)), w)
  {
    hide Sound, Replay, AllRecorded, RowsOk, IdsOk, JobsOk, JobOk, WritesOf, Attempt, Sum, Positive;
    var job := s.jobs[w];
    JobFacts(s, w);
    CommitIsStep(s.db, job);
    RaisesExactly(start, s.db, job.tx);
    PublishFrame(s.db, job);
  }

  lemma WorkMovesOn(start: map<AccountId, int>, s: State, step: Step)
    requires Inv(start, s) && Enabled(s, step) && Works(step) && AmountsFit(s.jobs)
    requires Sum(Positive(start)) <= 9_223_372_036_854_775_807
    ensures MovesOn(s, Next(s, step), step.w)
  {
    hide Inv, Sum, Positive, MovesOn, Next, FitsColumns;
    match step
    case LockRow(w) => LockMovesOn(s, w);
    case Decide(w) => DecideMovesOn(s, w);
    case Flush(w) => FlushMovesOn(start, s, w);
    case Commit(w) => CommitMovesOn(start, s, w);
  }

  lemma WorkFor(s: State, w: WorkerId) returns (step: Step)
    requires w in s.jobs && CanStep(s, w)
    ensures Enabled(s, step) && Works(step) && step.w == w
  {
    hide Enabled;
    if Enabled(s, LockRow(w)) {
      return LockRow(w);
    }
    if Enabled(s, Decide(w)) {
      return Decide(w);
    }
    return if Enabled(s, Flush(w)) then Flush(w) else Commit(w);
  }

  // ---------------------------------------------------------------------------------------------
  // All of them
  // ---------------------------------------------------------------------------------------------

  ghost predicate Reaches(s: State, t: State) {
    exists steps :: Runs(s, steps, t)
  }

  lemma StepFirst(s: State, step: Step, t: State)
    requires Enabled(s, step) && Reaches(Next(s, step), t)
    ensures Reaches(s, t)
  {
    var steps :| Runs(Next(s, step), steps, t);
    assert ([step] + steps)[1..] == steps;
    assert Runs(s, [step] + steps, t);
  }

  /** Every call of `jobs` has its transaction recorded. */
  ghost predicate AllDone(jobs: map<WorkerId, Job>, db: Ledger) {
    forall w :: w in jobs ==> jobs[w].tx.raw.id in db.transactions
  }

  lemma DoneLater(s: State, u: State, t: State, w: WorkerId)
    requires MovesOn(s, u, w) && AllDone(u.jobs, t.db) && u.db.transactions.Keys <= t.db.transactions.Keys
    ensures AllDone(s.jobs, t.db) && s.db.transactions.Keys <= t.db.transactions.Keys
  {
    forall v | v in s.jobs ensures s.jobs[v].tx.raw.id in t.db.transactions {
      if v in u.jobs {
        assert u.jobs[v].tx == s.jobs[v].tx;
      } else {
        assert s.jobs[v].tx.raw.id in u.db.transactions.Keys;
      }
    }
  }

  lemma FitsLater(s: State, u: State, w: WorkerId)
    requires MovesOn(s, u, w) && AmountsFit(s.jobs)
    ensures AmountsFit(u.jobs)
  {
    hide FitsColumns, Rank;
    forall v | v in u.jobs ensures FitsColumns(u.jobs[v].tx) {
      assert v in s.jobs && u.jobs[v].tx == s.jobs[v].tx;
    }
  }

  lemma {:induction false} Finish(start: map<AccountId, int>, s: State) returns (t: State)
    requires Inv(start, s) && AmountsFit(s.jobs) && Sum(Positive(start)) <= 9_223_372_036_854_775_807
    ensures Reaches(s, t) && t.jobs == map[]
    ensures AllDone(s.jobs, t.db) && s.db.transactions.Keys <= t.db.transactions.Keys
    decreases WorkLeft(s)
  {
    hide Sum, Positive, Enabled, Next, CanStep, Works, Reaches, WorkLeft, HistoryOk, LocksOk, AmountsFit, AllDone;
    if s.jobs == map[] {
      t := s;
      NothingToDo(s);
      return;
    }
    var w :| w in s.jobs;
    var free := Climb(s, w, {});
    var step := WorkFor(s, free);
    var u := Next(s, step);
    WorkMovesOn(start, s, step);
    StepKeepsInv(start, s, step);
    FitsLater(s, u, free);
    LessWork(s, u, free);
    WorkIsNatural(u);
    t := Finish(start, u);
    StepFirst(s, step, t);
    DoneLater(s, u, t, free);
  }

  lemma NothingToDo(s: State)
    requires s.jobs == map[]
    ensures Reaches(s, s) && AllDone(s.jobs, s.db)
  {
    assert Runs(s, [], s);
  }

  /**
   * From every reachable state of any number of workers all calls in flight can be finished: then no worker
   * is left, and each of their transactions is recorded.
   */
  lemma AllCallsCanFinish(start: map<AccountId, int>, steps: seq<Step>, s: State)
    requires Startable(start) && Runs(Init(start), steps, s)
    requires Sum(Positive(start)) <= 9_223_372_036_854_775_807
    requires forall w :: w in s.jobs && s.jobs[w].tx.decision.DecisionApproved? ==>
               s.jobs[w].tx.raw.amount <= 2_147_483_647
    ensures exists t :: Reaches(s, t) && t.jobs == map[]
                        && forall w :: w in s.jobs ==> s.jobs[w].tx.raw.id in t.db.transactions
  {
    FreshSound(start);
    RunKeepsInv(start, Init(start), steps, s);
    var t := Finish(start, s);
  }
}
