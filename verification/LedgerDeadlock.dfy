/**
 * Deadlock freedom of the ledger workers: rows are locked in ascending account order and the
 * transaction id last, so waiting always goes upwards.
 */
module LedgerDeadlock {
  import opened Common
  import opened LedgerInvariants
  import opened LedgerWorkers

  /** `w` is blocked on a lock that `v` holds: a row, or the insert of the same transaction id. */
  predicate WaitsFor(s: State, w: WorkerId, v: WorkerId) {
    && w in s.jobs
    && var job := s.jobs[w];
       match job.stage
       case Locking =>
         var row := NextRow(s.db.balances.Keys, job);
         row.Some? && row.value in s.rowLocks && s.rowLocks[row.value] == v
       case Flushing(_, _) => job.tx.raw.id in s.idLocks && s.idLocks[job.tx.raw.id] == v
       case Posted(_, _) => false
  }

  /** Some step other than a rollback is open to `w`. */
  predicate CanStep(s: State, w: WorkerId) {
    Enabled(s, LockRow(w)) || Enabled(s, Decide(w)) || Enabled(s, Flush(w)) || Enabled(s, Commit(w))
  }

  /** A worker that cannot step waits for another unfinished worker. */
  lemma BlockedWaits(s: State, w: WorkerId)
    requires LocksOk(s.db, s.jobs, s.rowLocks, s.idLocks) && w in s.jobs && !CanStep(s, w)
    ensures exists v :: v in s.jobs && v != w && WaitsFor(s, w, v)
  {
    var job := s.jobs[w];
    assert !Enabled(s, LockRow(w)) && !Enabled(s, Decide(w)) && !Enabled(s, Flush(w)) && !Enabled(s, Commit(w));
    var v := if job.stage.Locking? then s.rowLocks[NextRow(s.db.balances.Keys, job).value]
             else s.idLocks[job.tx.raw.id];
    assert WaitsFor(s, w, v);
  }

  /** The height of the lock a worker asks for: row locks by account id, the id insert above all rows. */
  datatype Height = Row(account: AccountId) | Top

  function HeightOf(s: State, w: WorkerId): Height
    requires w in s.jobs
  {
    var row := NextRow(s.db.balances.Keys, s.jobs[w]);
    if s.jobs[w].stage.Locking? && row.Some? then Row(row.value) else Top
  }

  predicate Below(a: Height, b: Height) {
    a.Row? && (b.Row? ==> a.account < b.account)
  }

  lemma WaitingGoesUp(s: State, w: WorkerId, v: WorkerId, u: WorkerId)
    requires LocksOk(s.db, s.jobs, s.rowLocks, s.idLocks)
    requires WaitsFor(s, w, v) && WaitsFor(s, v, u)
    ensures Below(HeightOf(s, w), HeightOf(s, v))
  {
    assert JobOk(s.db.balances.Keys, s.jobs[v]);
    var row := NextRow(s.db.balances.Keys, s.jobs[w]);
    if s.jobs[w].stage.Locking? {
      assert row.value in s.jobs[v].read;
      HeldIsBelowWanted(s.db.balances.Keys, s.jobs[v], row.value);
    }
  }

  /** A row a worker holds is below the next row it asks for. */
  lemma HeldIsBelowWanted(accounts: set<AccountId>, job: Job, row: AccountId)
    requires JobOk(accounts, job) && row in job.read
    ensures job.stage.Locking? && NextRow(accounts, job).Some? ==> row < NextRow(accounts, job).value
  {
  }

  ghost predicate WaitChain(s: State, c: seq<WorkerId>) {
    forall i :: 0 <= i < |c| - 1 ==> WaitsFor(s, c[i], c[i + 1])
  }

  lemma {:induction false} ChainGoesUp(s: State, c: seq<WorkerId>, u: WorkerId)
    requires LocksOk(s.db, s.jobs, s.rowLocks, s.idLocks)
    requires |c| >= 2 && WaitChain(s, c) && WaitsFor(s, c[|c| - 1], u)
    ensures c[0] in s.jobs && c[|c| - 1] in s.jobs
    ensures Below(HeightOf(s, c[0]), HeightOf(s, c[|c| - 1]))
    decreases |c|
  {
    assert WaitsFor(s, c[0], c[1]);
    if |c| == 2 {
      WaitingGoesUp(s, c[0], c[1], u);
    } else {
      var rest := c[1..];
      forall i | 0 <= i < |rest| - 1 ensures WaitsFor(s, rest[i], rest[i + 1]) {
        assert WaitsFor(s, c[i + 1], c[i + 2]);
      }
      assert WaitsFor(s, c[1], c[2]);
      ChainGoesUp(s, rest, u);
      WaitingGoesUp(s, c[0], c[1], c[2]);
    }
  }

  /** The wait-for relation has no cycle. */
  lemma NoWaitCycle(s: State, c: seq<WorkerId>)
    requires LocksOk(s.db, s.jobs, s.rowLocks, s.idLocks) && |c| >= 2 && WaitChain(s, c)
    ensures c[0] != c[|c| - 1]
  {
    if c[0] == c[|c| - 1] {
      assert WaitsFor(s, c[0], c[1]);
      ChainGoesUp(s, c, c[1]);
      assert false;
    }
  }

  /** From a worker that cannot step: the worker it waits for can, or asks for a higher lock. */
  lemma Up(s: State, w: WorkerId) returns (v: WorkerId)
    requires LocksOk(s.db, s.jobs, s.rowLocks, s.idLocks) && w in s.jobs && !CanStep(s, w)
    ensures v in s.jobs && (CanStep(s, v) || Below(HeightOf(s, w), HeightOf(s, v)))
  {
    BlockedWaits(s, w);
    v :| v in s.jobs && v != w && WaitsFor(s, w, v);
    if !CanStep(s, v) {
      BlockedWaits(s, v);
      var u :| u in s.jobs && u != v && WaitsFor(s, v, u);
      WaitingGoesUp(s, w, v, u);
    }
  }

  /** Climbing the wait-for relation from any worker ends at one that can step. */
  lemma {:induction false} Climb(s: State, w: WorkerId, below: set<WorkerId>) returns (free: WorkerId)
    requires LocksOk(s.db, s.jobs, s.rowLocks, s.idLocks) && w in s.jobs
    requires below <= s.jobs.Keys && w !in below
    requires forall v :: v in below ==> Below(HeightOf(s, v), HeightOf(s, w))
    ensures free in s.jobs && CanStep(s, free)
    decreases s.jobs.Keys - below
  {
    hide LocksOk, CanStep, HeightOf;
    if CanStep(s, w) {
      return w;
    }
    var v := Up(s, w);
    if CanStep(s, v) {
      return v;
    }
    assert w in s.jobs.Keys - below;
    free := Climb(s, v, below + {w});
  }

  /**
   * In every reachable state, opposite transfers and concurrent duplicates included, no workers wait
   * for each other in a circle, and while some call is unfinished some call can go on.
   */
  lemma DeadlockFree(start: map<AccountId, int>, steps: seq<Step>, t: State)
    requires Startable(start) && Runs(Init(start), steps, t)
    ensures forall c: seq<WorkerId> :: |c| >= 2 && WaitChain(t, c) ==> c[0] != c[|c| - 1]
    ensures t.jobs != map[] ==> exists w :: w in t.jobs && CanStep(t, w)
  {
    FreshSound(start);
    RunKeepsInv(start, Init(start), steps, t);
    forall c: seq<WorkerId> | |c| >= 2 && WaitChain(t, c) ensures c[0] != c[|c| - 1] {
      NoWaitCycle(t, c);
    }
    if t.jobs != map[] {
      var w :| w in t.jobs;
      var free := Climb(t, w, {});
    }
  }
}
