/**
 * Any number of ledger workers on one database: each `create_ledger` is a sequence of row locks,
 * reads, an insert of the transaction id, and a commit that writes absolute balances; it can be
 * rolled back at any point. The model is a transition system over these steps.
 */
module LedgerWorkers {
  import opened Common
  import opened Ledger
  import opened LedgerInvariants

  type WorkerId = nat

  /** `Posted` is after the flush of the transaction row and before the commit. */
  datatype Stage =
    | Locking
    | Flushing(verdict: Verdict, writes: map<AccountId, int>)
    | Posted(verdict: Verdict, writes: map<AccountId, int>)

  /** `read` holds the balances of the rows locked so far, as they were when the lock was granted. */
  datatype Job = Job(tx: ScoredTx, read: map<AccountId, int>, stage: Stage)

  /** `handled` lists, in commit order, the messages whose call returned normally. */
  datatype State = State(
    db: Ledger,
    jobs: map<WorkerId, Job>,
    rowLocks: map<AccountId, WorkerId>,
    idLocks: map<TxId, WorkerId>,
    handled: seq<ScoredTx>)

  datatype Step =
    | Begin(w: WorkerId, tx: ScoredTx)
    | LockRow(w: WorkerId)
    | Decide(w: WorkerId)
    | Flush(w: WorkerId)
    | Commit(w: WorkerId)
    | Abort(w: WorkerId)

  function Init(start: map<AccountId, int>): State {
    State(Fresh(start), map[], map[], map[], [])
  }

  function Low(tx: RawTx): AccountId {
    if tx.sender <= tx.receiver then tx.sender else tx.receiver
  }

  function High(tx: RawTx): AccountId {
    if tx.sender <= tx.receiver then tx.receiver else tx.sender
  }

  /** The row `SELECT ... ORDER BY account_id FOR UPDATE` locks next, if one is left. */
  function NextRow(accounts: set<AccountId>, job: Job): Option<AccountId> {
    var tx := job.tx.raw;
    if Low(tx) in accounts && Low(tx) !in job.read then Some(Low(tx))
    else if High(tx) in accounts && High(tx) !in job.read then Some(High(tx))
    else None
  }

  function WritesOf(read: map<AccountId, int>, tx: ScoredTx): map<AccountId, int> {
    if Judge(read, tx).status.Completed? then Transfer(read, tx.raw) else map[]
  }

  predicate ChecksHold(writes: map<AccountId, int>) {
    forall a :: a in writes ==> CheckHolds(a, writes[a])
  }

  predicate WidthsFit(tx: ScoredTx, writes: map<AccountId, int>) {
    writes != map[] ==> tx.raw.amount <= INT_MAX && forall a :: a in writes ==> writes[a] <= BIGINT_MAX
  }

  predicate Enabled(s: State, step: Step) {
    if step.Begin? then step.w !in s.jobs
    else
      && step.w in s.jobs
      && var job := s.jobs[step.w];
         match step
         case LockRow(_) =>
           && job.stage.Locking?
           && var row := NextRow(s.db.balances.Keys, job);
              row.Some? && row.value !in s.rowLocks
         case Decide(_) => job.stage.Locking? && NextRow(s.db.balances.Keys, job).None?
         case Flush(_) => job.stage.Flushing? && job.tx.raw.id !in s.idLocks
         case Commit(_) => job.stage.Posted?
         case Abort(_) => true
  }

  /** The session of `w` is over and its locks are free. */
  function Release(s: State, w: WorkerId): State {
    s.(jobs := s.jobs - {w},
       rowLocks := map a | a in s.rowLocks && s.rowLocks[a] != w :: s.rowLocks[a],
       idLocks := map x | x in s.idLocks && s.idLocks[x] != w :: s.idLocks[x])
  }

  /** What the commit of one job publishes: absolute balances, the rows, and the entries. */
  function Publish(l: Ledger, tx: ScoredTx, verdict: Verdict, writes: map<AccountId, int>): Ledger {
    var recorded := Record(l, tx.raw, verdict);
    if verdict.status.Completed?
    then recorded.(balances := l.balances + writes, entries := l.entries + Postings(tx.raw))
    else recorded
  }

  function PutJob(s: State, w: WorkerId, job: Job): State {
    s.(jobs := s.jobs[w := job])
  }

  function StartOf(tx: ScoredTx): Job {
    Job(tx, map[], if tx.decision.DecisionApproved? then Locking else Flushing(Judge(map[], tx), map[]))
  }

  /** The lock on `row` is granted and the latest committed balance is read. */
  function Grant(s: State, w: WorkerId, row: AccountId): State
    requires w in s.jobs && row in s.db.balances
  {
    var job := s.jobs[w];
    PutJob(s, w, job.(read := job.read[row := s.db.balances[row]])).(rowLocks := s.rowLocks[row := w])
  }

  /** The transaction row is inserted, not yet committed: its id is locked. */
  function Insert(s: State, w: WorkerId): State
    requires w in s.jobs && s.jobs[w].stage.Flushing?
  {
    var job := s.jobs[w];
    PutJob(s, w, job.(stage := Posted(job.stage.verdict, job.stage.writes))).(idLocks := s.idLocks[job.tx.raw.id := w])
  }

  function Next(s: State, step: Step): State
    requires Enabled(s, step)
  {
    var w := step.w;
    match step
    case Begin(_, tx) =>
      PutJob(s, w, StartOf(tx))
    case LockRow(_) =>
      Grant(s, w, NextRow(s.db.balances.Keys, s.jobs[w]).value)
    case Decide(_) =>
      var job := s.jobs[w];
      PutJob(s, w, job.(stage := Flushing(Judge(job.read, job.tx), WritesOf(job.read, job.tx))))
    case Flush(_) =>
      var job := s.jobs[w];
      if job.tx.raw.id in s.db.transactions || !ChecksHold(job.stage.writes) then
        // IntegrityError: rolled back and swallowed, the caller goes on
        Release(s, w).(handled := s.handled + [job.tx])
      else
        Insert(s, w)
    case Commit(_) =>
      var job := s.jobs[w];
      if !WidthsFit(job.tx, job.stage.writes) then
        // DataError: rolled back and raised
        Release(s, w)
      else
        Release(s, w).(db := Publish(s.db, job.tx, job.stage.verdict, job.stage.writes),
                       handled := s.handled + [job.tx])
    case Abort(_) => Release(s, w)
  }

  ghost predicate Runs(s: State, steps: seq<Step>, t: State)
    decreases |steps|
  {
    if steps == [] then s == t
    else Enabled(s, steps[0]) && Runs(Next(s, steps[0]), steps[1..], t)
  }

  // ---------------------------------------------------------------------------------------------
  // The invariant
  // ---------------------------------------------------------------------------------------------

  function Wanted(accounts: set<AccountId>, tx: ScoredTx): set<AccountId> {
    if tx.decision.DecisionApproved? then {tx.raw.sender, tx.raw.receiver} * accounts else {}
  }

  predicate JobOk(accounts: set<AccountId>, job: Job) {
    && job.read.Keys <= Wanted(accounts, job.tx)
    && match job.stage
       case Locking =>
         && job.tx.decision.DecisionApproved?
         && (High(job.tx.raw) in job.read && Low(job.tx.raw) in accounts ==> Low(job.tx.raw) in job.read)
       case Flushing(verdict, writes) =>
         && job.read.Keys == Wanted(accounts, job.tx)
         && verdict == Judge(job.read, job.tx) && writes == WritesOf(job.read, job.tx)
       case Posted(verdict, writes) =>
         && job.read.Keys == Wanted(accounts, job.tx)
         && verdict == Judge(job.read, job.tx) && writes == WritesOf(job.read, job.tx)
         && ChecksHold(writes)
  }

  ghost predicate JobsOk(accounts: set<AccountId>, jobs: map<WorkerId, Job>) {
    forall w :: w in jobs ==> JobOk(accounts, jobs[w])
  }

  /** A held row belongs to one worker only, and still has the balance that worker read. */
  ghost predicate RowsOk(balances: map<AccountId, int>, jobs: map<WorkerId, Job>, rowLocks: map<AccountId, WorkerId>) {
    && (forall w, a :: w in jobs && a in jobs[w].read ==>
          && a in rowLocks && rowLocks[a] == w
          && a in balances && jobs[w].read[a] == balances[a])
    && (forall a :: a in rowLocks ==> rowLocks[a] in jobs && a in jobs[rowLocks[a]].read)
  }

  /** An inserted and uncommitted transaction id belongs to one worker, and is not yet recorded. */
  ghost predicate IdsOk(recorded: set<TxId>, jobs: map<WorkerId, Job>, idLocks: map<TxId, WorkerId>) {
    && (forall w :: w in jobs && jobs[w].stage.Posted? ==>
          var x := jobs[w].tx.raw.id;
          x in idLocks && idLocks[x] == w && x !in recorded)
    && (forall x :: x in idLocks ==>
          idLocks[x] in jobs && jobs[idLocks[x]].stage.Posted? && jobs[idLocks[x]].tx.raw.id == x)
  }

  ghost predicate LocksOk(
    db: Ledger, jobs: map<WorkerId, Job>, rowLocks: map<AccountId, WorkerId>, idLocks: map<TxId, WorkerId>)
  {
    && JobsOk(db.balances.Keys, jobs)
    && RowsOk(db.balances, jobs, rowLocks)
    && IdsOk(db.transactions.Keys, jobs, idLocks)
  }

  ghost predicate HistoryOk(start: map<AccountId, int>, db: Ledger, handled: seq<ScoredTx>) {
    && db == Replay(Fresh(start), handled)
    && AllRecorded(Fresh(start), handled)
    && Sound(start, db)
  }

  ghost predicate Inv(start: map<AccountId, int>, s: State) {
    HistoryOk(start, s.db, s.handled) && LocksOk(s.db, s.jobs, s.rowLocks, s.idLocks)
  }

  /** A decision taken on the locked rows is the decision on the whole database. */
  lemma LocalDecision(l: Ledger, job: Job)
    requires job.read.Keys == Wanted(l.balances.Keys, job.tx)
    requires forall a :: a in job.read ==> job.read[a] == l.balances[a]
    ensures Judge(job.read, job.tx) == Judge(l.balances, job.tx)
    ensures Judge(job.read, job.tx).status.Completed? ==>
              && l.balances + WritesOf(job.read, job.tx) == Transfer(l.balances, job.tx.raw)
              && WritesOf(job.read, job.tx).Keys == {job.tx.raw.sender, job.tx.raw.receiver}
  {
  }

  /** The commit of a job whose rows are still locked is the atomic step on the current database. */
  lemma CommitIsStep(l: Ledger, job: Job)
    requires JobOk(l.balances.Keys, job) && job.stage.Posted? && job.tx.raw.id !in l.transactions
    requires forall a :: a in job.read ==> job.read[a] == l.balances[a]
    ensures WidthsFit(job.tx, job.stage.writes) ==>
              Apply(l, job.tx) == Publish(l, job.tx, job.stage.verdict, job.stage.writes)
    ensures !WidthsFit(job.tx, job.stage.writes) ==> Attempt(l, job.tx) == WidthFault
  {
    LocalDecision(l, job);
    var w := job.stage.writes;
    if job.stage.verdict.status.Completed? {
      assert w != map[] by { assert job.tx.raw.sender in w; }
      var b := Transfer(l.balances, job.tx.raw);
      assert b[job.tx.raw.sender] == w[job.tx.raw.sender] && b[job.tx.raw.receiver] == w[job.tx.raw.receiver];
    }
  }

  lemma ReleaseOk(s: State, w: WorkerId)
    requires w in s.jobs && LocksOk(s.db, s.jobs, s.rowLocks, s.idLocks)
    ensures var t := Release(s, w); LocksOk(t.db, t.jobs, t.rowLocks, t.idLocks)
  {
    hide JobOk;
    RowsElsewhere(s, w, s.db.balances);
    IdsReleased(s, w);
    hide RowsOk, IdsOk;
  }

  lemma IdsReleased(s: State, w: WorkerId)
    requires w in s.jobs && IdsOk(s.db.transactions.Keys, s.jobs, s.idLocks)
    ensures IdsOk(s.db.transactions.Keys, Release(s, w).jobs, Release(s, w).idLocks)
  {
  }

  /** Publishing touches only rows its worker holds, so no other worker's reads go stale. */
  lemma PublishOk(s: State, w: WorkerId)
    requires w in s.jobs && s.jobs[w].stage.Posted? && LocksOk(s.db, s.jobs, s.rowLocks, s.idLocks)
    ensures var t := Release(s, w);
            var db' := Publish(s.db, s.jobs[w].tx, s.jobs[w].stage.verdict, s.jobs[w].stage.writes);
            LocksOk(db', t.jobs, t.rowLocks, t.idLocks)
  {
    hide JobOk, Release;
    JobFacts(s, w);
    PublishFrame(s.db, s.jobs[w]);
    hide Publish;
    OthersOk(s, w, Publish(s.db, s.jobs[w].tx, s.jobs[w].stage.verdict, s.jobs[w].stage.writes));
  }

  /** A database that differs only in the rows and the id of `w` leaves every other worker as it was. */
  lemma OthersOk(s: State, w: WorkerId, db': Ledger)
    requires w in s.jobs && s.jobs[w].stage.Posted? && LocksOk(s.db, s.jobs, s.rowLocks, s.idLocks)
    requires db'.balances.Keys == s.db.balances.Keys
    requires db'.transactions.Keys == s.db.transactions.Keys + {s.jobs[w].tx.raw.id}
    requires forall a :: a in s.db.balances && a !in s.jobs[w].read ==> db'.balances[a] == s.db.balances[a]
    ensures var t := Release(s, w); LocksOk(db', t.jobs, t.rowLocks, t.idLocks)
  {
    hide JobOk, JobsOk, RowsOk, IdsOk;
    ReleaseOk(s, w);
    RowsElsewhere(s, w, db'.balances);
    IdsElsewhere(s, w);
  }

  /** What the invariant says of one worker: its reads are fresh, and an inserted id is new. */
  lemma JobFacts(s: State, w: WorkerId)
    requires w in s.jobs && LocksOk(s.db, s.jobs, s.rowLocks, s.idLocks)
    ensures var job := s.jobs[w];
            && JobOk(s.db.balances.Keys, job)
            && (forall a :: a in job.read ==> a in s.db.balances && job.read[a] == s.db.balances[a])
            && (job.stage.Posted? ==> job.tx.raw.id !in s.db.transactions)
  {
    hide JobOk;
  }

  /** Rows of other workers keep their balances when only the rows of `w` change. */
  lemma RowsElsewhere(s: State, w: WorkerId, balances: map<AccountId, int>)
    requires w in s.jobs && RowsOk(s.db.balances, s.jobs, s.rowLocks)
    requires balances.Keys == s.db.balances.Keys
    requires forall a :: a in balances && a !in s.jobs[w].read ==> balances[a] == s.db.balances[a]
    ensures RowsOk(balances, Release(s, w).jobs, Release(s, w).rowLocks)
  {
  }

  lemma IdsElsewhere(s: State, w: WorkerId)
    requires w in s.jobs && s.jobs[w].stage.Posted? && IdsOk(s.db.transactions.Keys, s.jobs, s.idLocks)
    ensures IdsOk(s.db.transactions.Keys + {s.jobs[w].tx.raw.id}, Release(s, w).jobs, Release(s, w).idLocks)
  {
  }

  lemma PublishFrame(l: Ledger, job: Job)
    requires JobOk(l.balances.Keys, job) && job.stage.Posted?
    requires forall a :: a in job.read ==> job.read[a] == l.balances[a]
    ensures var db' := Publish(l, job.tx, job.stage.verdict, job.stage.writes);
            && db'.balances.Keys == l.balances.Keys
            && db'.transactions.Keys == l.transactions.Keys + {job.tx.raw.id}
            && forall a :: a in l.balances && a !in job.read ==> db'.balances[a] == l.balances[a]
  {
    LocalDecision(l, job);
  }

  lemma BeginOk(s: State, w: WorkerId, tx: ScoredTx)
    requires w !in s.jobs && LocksOk(s.db, s.jobs, s.rowLocks, s.idLocks)
    ensures var t := PutJob(s, w, StartOf(tx)); LocksOk(t.db, t.jobs, t.rowLocks, t.idLocks)
  {
    StartJob(s.db.balances.Keys, tx);
    PutJobOk(s.db.balances.Keys, s.jobs, w, StartOf(tx));
    StartRows(s.db.balances, s.jobs, s.rowLocks, w, StartOf(tx));
    PutUnposted(s.db.transactions.Keys, s.jobs, s.idLocks, w, StartOf(tx));
  }

  lemma StartJob(accounts: set<AccountId>, tx: ScoredTx)
    ensures JobOk(accounts, StartOf(tx)) && StartOf(tx).read == map[] && !StartOf(tx).stage.Posted?
  {
  }

  lemma StartRows(
    balances: map<AccountId, int>, jobs: map<WorkerId, Job>, rowLocks: map<AccountId, WorkerId>, w: WorkerId, job: Job)
    requires RowsOk(balances, jobs, rowLocks) && w !in jobs && job.read == map[]
    ensures RowsOk(balances, jobs[w := job], rowLocks)
  {
  }

  lemma GrantOk(s: State, w: WorkerId, row: AccountId)
    requires w in s.jobs && s.jobs[w].stage.Locking? && row !in s.rowLocks
    requires NextRow(s.db.balances.Keys, s.jobs[w]) == Some(row)
    requires LocksOk(s.db, s.jobs, s.rowLocks, s.idLocks)
    ensures var t := Grant(s, w, row); LocksOk(t.db, t.jobs, t.rowLocks, t.idLocks)
  {
    var job, job' := s.jobs[w], Grant(s, w, row).jobs[w];
    assert JobOk(s.db.balances.Keys, job);
    GrantJob(s.db.balances.Keys, job, row, s.db.balances[row]);
    PutJobOk(s.db.balances.Keys, s.jobs, w, job');
    GrantRow(s.db.balances, s.jobs, s.rowLocks, w, row);
    PutUnposted(s.db.transactions.Keys, s.jobs, s.idLocks, w, job');
  }

  lemma GrantJob(accounts: set<AccountId>, job: Job, row: AccountId, balance: int)
    requires JobOk(accounts, job) && job.stage.Locking? && NextRow(accounts, job) == Some(row)
    ensures JobOk(accounts, job.(read := job.read[row := balance]))
  {
  }

  lemma GrantRow(
    balances: map<AccountId, int>, jobs: map<WorkerId, Job>, rowLocks: map<AccountId, WorkerId>,
    w: WorkerId, row: AccountId)
    requires RowsOk(balances, jobs, rowLocks) && w in jobs && row in balances && row !in rowLocks
    ensures RowsOk(balances, jobs[w := jobs[w].(read := jobs[w].read[row := balances[row]])], rowLocks[row := w])
  {
  }

  /** A job that holds no transaction id before or after leaves the ids alone. */
  lemma PutUnposted(
    recorded: set<TxId>, jobs: map<WorkerId, Job>, idLocks: map<TxId, WorkerId>, w: WorkerId, job: Job)
    requires IdsOk(recorded, jobs, idLocks) && (w in jobs ==> !jobs[w].stage.Posted?) && !job.stage.Posted?
    ensures IdsOk(recorded, jobs[w := job], idLocks)
  {
  }

  lemma DecideOk(s: State, w: WorkerId)
    requires w in s.jobs && s.jobs[w].stage.Locking? && NextRow(s.db.balances.Keys, s.jobs[w]).None?
    requires LocksOk(s.db, s.jobs, s.rowLocks, s.idLocks)
    ensures var job := s.jobs[w];
            var t := PutJob(s, w, job.(stage := Flushing(Judge(job.read, job.tx), WritesOf(job.read, job.tx))));
            LocksOk(t.db, t.jobs, t.rowLocks, t.idLocks)
  {
    var job := s.jobs[w];
    var job' := job.(stage := Flushing(Judge(job.read, job.tx), WritesOf(job.read, job.tx)));
    assert JobOk(s.db.balances.Keys, job);
    assert job.read.Keys == Wanted(s.db.balances.Keys, job.tx);
    PutJobOk(s.db.balances.Keys, s.jobs, w, job');
    PutSameReads(s.db.balances, s.jobs, s.rowLocks, w, job');
    PutUnposted(s.db.transactions.Keys, s.jobs, s.idLocks, w, job');
  }

  lemma InsertOk(s: State, w: WorkerId)
    requires w in s.jobs && s.jobs[w].stage.Flushing? && LocksOk(s.db, s.jobs, s.rowLocks, s.idLocks)
    requires var x := s.jobs[w].tx.raw.id; x !in s.idLocks && x !in s.db.transactions
    requires ChecksHold(s.jobs[w].stage.writes)
    ensures var t := Insert(s, w); LocksOk(t.db, t.jobs, t.rowLocks, t.idLocks)
  {
    var job := s.jobs[w];
    var job' := job.(stage := Posted(job.stage.verdict, job.stage.writes));
    assert JobOk(s.db.balances.Keys, job);
    InsertJob(s.db.balances.Keys, job);
    PutJobOk(s.db.balances.Keys, s.jobs, w, job');
    PutSameReads(s.db.balances, s.jobs, s.rowLocks, w, job');
    InsertIds(s.db.transactions.Keys, s.jobs, s.idLocks, w, job');
  }

  lemma InsertJob(accounts: set<AccountId>, job: Job)
    requires JobOk(accounts, job) && job.stage.Flushing? && ChecksHold(job.stage.writes)
    ensures JobOk(accounts, job.(stage := Posted(job.stage.verdict, job.stage.writes)))
  {
  }

  lemma PutJobOk(accounts: set<AccountId>, jobs: map<WorkerId, Job>, w: WorkerId, job: Job)
    requires JobsOk(accounts, jobs) && JobOk(accounts, job)
    ensures JobsOk(accounts, jobs[w := job])
  {
  }

  lemma PutSameReads(
    balances: map<AccountId, int>, jobs: map<WorkerId, Job>, rowLocks: map<AccountId, WorkerId>, w: WorkerId, job: Job)
    requires RowsOk(balances, jobs, rowLocks) && w in jobs && job.read == jobs[w].read
    ensures RowsOk(balances, jobs[w := job], rowLocks)
  {
  }

  lemma InsertIds(
    recorded: set<TxId>, jobs: map<WorkerId, Job>, idLocks: map<TxId, WorkerId>, w: WorkerId, job: Job)
    requires IdsOk(recorded, jobs, idLocks) && w in jobs && !jobs[w].stage.Posted? && job.stage.Posted?
    requires job.tx.raw.id !in idLocks && job.tx.raw.id !in recorded
    ensures IdsOk(recorded, jobs[w := job], idLocks[job.tx.raw.id := w])
  {
  }

  /** A call that returned normally has left its transaction recorded, by itself or by its twin. */
  lemma ReturnRecords(start: map<AccountId, int>, db: Ledger, handled: seq<ScoredTx>, tx: ScoredTx)
    requires HistoryOk(start, db, handled) && tx.raw.id in Apply(db, tx).transactions
    ensures HistoryOk(start, Apply(db, tx), handled + [tx])
  {
    ReplayAppend(Fresh(start), handled, tx);
    AllRecordedAppend(Fresh(start), handled, tx);
    StepSound(start, db, tx);
  }

  lemma FlushKeepsInv(start: map<AccountId, int>, s: State, step: Step)
    requires Inv(start, s) && step.Flush? && Enabled(s, step)
    ensures Inv(start, Next(s, step))
  {
    var job := s.jobs[step.w];
    JobFacts(s, step.w);
    hide JobOk, RowsOk, IdsOk, JobsOk, Release, Insert, Attempt;
    ChecksAlwaysHold(start, s.db, job);
    if job.tx.raw.id in s.db.transactions {
      ReleaseOk(s, step.w);
      ReturnRecords(start, s.db, s.handled, job.tx);
    } else {
      InsertOk(s, step.w);
    }
  }

  /** No CHECK ever fails on a sound ledger, so a swallowed IntegrityError was the primary key. */
  lemma ChecksAlwaysHold(start: map<AccountId, int>, l: Ledger, job: Job)
    requires Sound(start, l) && JobOk(l.balances.Keys, job) && job.stage.Flushing?
    requires forall a :: a in job.read ==> job.read[a] == l.balances[a]
    ensures ChecksHold(job.stage.writes)
  {
    LocalDecision(l, job);
  }

  /** The published commit is one more atomic step of the history. */
  lemma CommitHistory(start: map<AccountId, int>, s: State, w: WorkerId)
    requires Inv(start, s) && w in s.jobs && s.jobs[w].stage.Posted?
    requires WidthsFit(s.jobs[w].tx, s.jobs[w].stage.writes)
    ensures var job := s.jobs[w];
            HistoryOk(start, Publish(s.db, job.tx, job.stage.verdict, job.stage.writes), s.handled + [job.tx])
  {
    var job := s.jobs[w];
    JobFacts(s, w);
    hide JobOk, RowsOk, IdsOk, JobsOk, WidthsFit, Sound, Replay, AllRecorded;
    CommitIsStep(s.db, job);
    assert job.tx.raw.id in Apply(s.db, job.tx).transactions;
    hide Publish, Apply;
    ReturnRecords(start, s.db, s.handled, job.tx);
  }

  lemma CommitKeepsInv(start: map<AccountId, int>, s: State, step: Step)
    requires Inv(start, s) && step.Commit? && Enabled(s, step)
    ensures Inv(start, Next(s, step))
  {
    hide HistoryOk, LocksOk, Publish, WidthsFit, NextRow, Grant, StartOf, Insert, Judge, WritesOf, ChecksHold;
    if WidthsFit(s.jobs[step.w].tx, s.jobs[step.w].stage.writes) {
      PublishOk(s, step.w);
      CommitHistory(start, s, step.w);
    } else {
      ReleaseOk(s, step.w);
    }
  }

  lemma StepKeepsInv(start: map<AccountId, int>, s: State, step: Step)
    requires Inv(start, s) && Enabled(s, step)
    ensures Inv(start, Next(s, step))
  {
    match step
    case Begin(w, tx) => BeginOk(s, w, tx);
    case LockRow(w) => GrantOk(s, w, NextRow(s.db.balances.Keys, s.jobs[w]).value);
    case Decide(w) => DecideOk(s, w);
    case Abort(w) => ReleaseOk(s, w);
    case Flush(_) => FlushKeepsInv(start, s, step);
    case Commit(_) => CommitKeepsInv(start, s, step);
  }

  lemma {:induction false} RunKeepsInv(start: map<AccountId, int>, s: State, steps: seq<Step>, t: State)
    requires Inv(start, s) && Runs(s, steps, t)
    ensures Inv(start, t)
    decreases |steps|
  {
    if steps != [] {
      StepKeepsInv(start, s, steps[0]);
      RunKeepsInv(start, Next(s, steps[0]), steps[1..], t);
    }
  }

  /**
   * Serializability: whatever the interleaving, the committed database is the atomic `create_ledger`
   * folded over the messages in the order their calls returned, so no update is lost; and redelivery
   * is harmless: folding only the first returned message of each id gives the same database.
   */
  lemma Serializable(start: map<AccountId, int>, steps: seq<Step>, t: State)
    requires Startable(start) && Runs(Init(start), steps, t)
    ensures t.db == Replay(Fresh(start), t.handled)
    ensures t.db == Replay(Fresh(start), FirstOfEachId(t.handled, {}))
    ensures Sound(start, t.db)
    ensures forall i :: 0 <= i < |t.handled| ==> t.handled[i].raw.id in t.db.transactions
  {
    FreshSound(start);
    RunKeepsInv(start, Init(start), steps, t);
    OnlyFirstMessagesMatter(Fresh(start), t.handled);
    assert Fresh(start).transactions.Keys == {};
    forall i | 0 <= i < |t.handled| ensures t.handled[i].raw.id in t.db.transactions {
      AllRecordedMeans(Fresh(start), t.handled, i);
    }
  }
}
