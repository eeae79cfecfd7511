/**
 * Any number of relay instances over one outbox table: row locks with SKIP LOCKED, sends, commits,
 * and crashes or rollbacks at any point. `sent[i]` counts how often row i reached the broker and
 * `lost[i]` how often the instance that sent it then failed to commit.
 */
module RelayFleet {
  import opened Common
  import opened OutboxRelay

  type RelayId = nat

  /** The locked batch of one instance, and how many of its rows are sent and marked in its session. */
  datatype Flight = Flight(batch: seq<nat>, done: nat)
  {
    /** The rows sent and marked in the session. */
    function Marked(): seq<nat> {
      if done <= |batch| then batch[..done] else batch
    }
  }

  datatype Fleet = Fleet(
    status: seq<OutboxStatus>,
    sent: seq<nat>,
    lost: seq<nat>,
    flights: map<RelayId, Flight>)

  datatype Step =
    | AddRow
    | Select(r: RelayId, batch: seq<nat>)
    | Send(r: RelayId)
    | SendFails(r: RelayId, delivered: bool)
    | Finish(r: RelayId)
    | Crash(r: RelayId)

  function Empty(): Fleet {
    Fleet([], [], [], map[])
  }

  ghost predicate LockedBy(s: Fleet, r: RelayId, row: nat) {
    r in s.flights && row in s.flights[r].batch
  }

  ghost predicate Locked(s: Fleet, row: nat) {
    exists r :: LockedBy(s, r, row)
  }

  ghost predicate Enabled(s: Fleet, step: Step) {
    match step
    case AddRow => true
    case Select(r, batch) =>
      && r !in s.flights && batch != [] && Distinct(batch)
      && forall i :: 0 <= i < |batch| ==>
           batch[i] < |s.status| && s.status[batch[i]].Unsent? && !Locked(s, batch[i])
    case Send(r) => r in s.flights && s.flights[r].done < |s.flights[r].batch|
    case SendFails(r, _) => r in s.flights && s.flights[r].done < |s.flights[r].batch|
    case Finish(r) => r in s.flights && s.flights[r].done == |s.flights[r].batch|
    case Crash(r) => r in s.flights
  }

  /** Rows of `counts` listed in `rows` go up by one. */
  function Bump(counts: seq<nat>, rows: seq<nat>): seq<nat> {
    seq(|counts|, i requires 0 <= i < |counts| => if i in rows then counts[i] + 1 else counts[i])
  }

  function SetProcessed(status: seq<OutboxStatus>, rows: seq<nat>): seq<OutboxStatus> {
    seq(|status|, i requires 0 <= i < |status| => if i in rows then Processed else status[i])
  }

  ghost function Next(s: Fleet, step: Step): Fleet
    requires Enabled(s, step) && FlightsOk(s)
  {
    match step
    case AddRow => s.(status := s.status + [Unsent], sent := s.sent + [0], lost := s.lost + [0])
    case Select(r, batch) => s.(flights := s.flights[r := Flight(batch, 0)])
    case Send(r) =>
      var f := s.flights[r];
      s.(sent := Bump(s.sent, [f.batch[f.done]]), flights := s.flights[r := f.(done := f.done + 1)])
    case SendFails(r, delivered) =>
      // the rows before the failure are committed; a delivered but failed send stays PENDING
      var f := s.flights[r];
      var ghosts := if delivered then [f.batch[f.done]] else [];
      s.(status := SetProcessed(s.status, f.Marked()),
         sent := Bump(s.sent, ghosts), lost := Bump(s.lost, ghosts), flights := s.flights - {r})
    case Finish(r) =>
      s.(status := SetProcessed(s.status, s.flights[r].batch), flights := s.flights - {r})
    case Crash(r) =>
      // crash, or an exception that leaves the session uncommitted: the locks go, the sends stay
      var f := s.flights[r];
      s.(lost := Bump(s.lost, f.Marked()), flights := s.flights - {r})
  }

  /** In-flight batches are pending rows, each locked once and by one instance. */
  ghost predicate FlightsOk(s: Fleet) {
    && |s.sent| == |s.status| == |s.lost|
    && (forall r :: r in s.flights ==>
          var f := s.flights[r];
          && f.done <= |f.batch| && Distinct(f.batch)
          && forall i :: 0 <= i < |f.batch| ==> f.batch[i] < |s.status| && s.status[f.batch[i]].Unsent?)
    && (forall r, q, row :: LockedBy(s, r, row) && LockedBy(s, q, row) ==> r == q)
  }

  /** The row is sent and marked in the session of some instance that has not committed yet. */
  ghost predicate InFlight(s: Fleet, row: nat) {
    exists r :: r in s.flights && row in s.flights[r].Marked()
  }

  /** Exact accounting: one send per PROCESSED or in-flight row, plus one per send that was lost. */
  ghost predicate Accounted(s: Fleet)
    requires FlightsOk(s)
  {
    forall i :: 0 <= i < |s.status| ==>
      s.sent[i] == s.lost[i] + if s.status[i].Processed? || InFlight(s, i) then 1 else 0
  }

  lemma SelectKeeps(s: Fleet, step: Step)
    requires FlightsOk(s) && Accounted(s) && Enabled(s, step) && step.Select?
    ensures FlightsOk(Next(s, step)) && Accounted(Next(s, step))
  {
    var t := Next(s, step);
    forall r, q, row | LockedBy(t, r, row) && LockedBy(t, q, row) ensures r == q {
      if r == step.r && q != step.r {
        assert LockedBy(s, q, row) && row in step.batch;
        assert Locked(s, row);
      } else if q == step.r && r != step.r {
        assert LockedBy(s, r, row) && row in step.batch;
        assert Locked(s, row);
      } else if r != step.r {
        assert LockedBy(s, r, row) && LockedBy(s, q, row);
      }
    }
    forall i | 0 <= i < |t.status| ensures InFlight(t, i) == InFlight(s, i) {
      if InFlight(s, i) {
        var r :| r in s.flights && i in s.flights[r].Marked();
        assert t.flights[r] == s.flights[r];
      }
    }
  }

  lemma SendKeeps(s: Fleet, step: Step)
    requires FlightsOk(s) && Accounted(s) && Enabled(s, step) && step.Send?
    ensures FlightsOk(Next(s, step)) && Accounted(Next(s, step))
  {
    var t, f := Next(s, step), s.flights[step.r];
    var row := f.batch[f.done];
    forall r, q, x | LockedBy(t, r, x) && LockedBy(t, q, x) ensures r == q {
      assert LockedBy(s, r, x) && LockedBy(s, q, x);
    }
    forall i | 0 <= i < |t.status| ensures InFlight(t, i) == (i == row || InFlight(s, i)) {
      SendMarks(s, step, i);
    }
    FreshSend(s, step);
  }

  lemma SendMarks(s: Fleet, step: Step, i: nat)
    requires FlightsOk(s) && Enabled(s, step) && step.Send?
    ensures var f := s.flights[step.r];
            InFlight(Next(s, step), i) <==> i == f.batch[f.done] || InFlight(s, i)
  {
    var t, f := Next(s, step), s.flights[step.r];
    assert t.flights[step.r].Marked() == f.Marked() + [f.batch[f.done]];
    if i == f.batch[f.done] {
      assert i in t.flights[step.r].Marked();
    }
    if InFlight(s, i) {
      var r :| r in s.flights && i in s.flights[r].Marked();
      assert i in t.flights[r].Marked();
    }
    if InFlight(t, i) {
      var r :| r in t.flights && i in t.flights[r].Marked();
      assert r in s.flights && (r != step.r ==> i in s.flights[r].Marked());
    }
  }

  /** The row being sent is not in flight yet, in this session or any other. */
  lemma FreshSend(s: Fleet, step: Step)
    requires FlightsOk(s) && Enabled(s, step) && step.Send?
    ensures var f := s.flights[step.r]; !InFlight(s, f.batch[f.done])
  {
    var f := s.flights[step.r];
    var row := f.batch[f.done];
    forall r | r in s.flights ensures row !in s.flights[r].Marked() {
      if row in s.flights[r].Marked() {
        assert LockedBy(s, r, row) && LockedBy(s, step.r, row);
      }
    }
  }

  /** How an instance lets go of its batch: `kept` rows become PROCESSED, `gone` rows are lost sends. */
  lemma LetGo(s: Fleet, r: RelayId, kept: seq<nat>, gone: seq<nat>)
    requires FlightsOk(s) && Accounted(s) && r in s.flights
    requires var f := s.flights[r]; kept + gone == f.Marked()
    ensures var t := s.(status := SetProcessed(s.status, kept), lost := Bump(s.lost, gone), flights := s.flights - {r});
            FlightsOk(t) && Accounted(t)
  {
    var f := s.flights[r];
    var t := s.(status := SetProcessed(s.status, kept), lost := Bump(s.lost, gone), flights := s.flights - {r});
    assert forall x :: x in kept ==> x in f.Marked();
    assert forall x :: x in gone ==> x in f.Marked();
    forall q | q in t.flights ensures
      forall i :: 0 <= i < |t.flights[q].batch| ==>
        t.flights[q].batch[i] < |t.status| && t.status[t.flights[q].batch[i]].Unsent?
    {
      forall i | 0 <= i < |t.flights[q].batch| ensures
        t.flights[q].batch[i] < |t.status| && t.status[t.flights[q].batch[i]].Unsent?
      {
        assert LockedBy(s, q, t.flights[q].batch[i]);
        if t.flights[q].batch[i] in kept {
          assert LockedBy(s, r, t.flights[q].batch[i]);
        }
      }
    }
    forall p, q, row | LockedBy(t, p, row) && LockedBy(t, q, row) ensures p == q {
      assert LockedBy(s, p, row) && LockedBy(s, q, row);
    }
    forall i | 0 <= i < |t.status| ensures
      t.sent[i] == t.lost[i] + if t.status[i].Processed? || InFlight(t, i) then 1 else 0
    {
      LetGoRow(s, r, kept, gone, i);
    }
  }

  lemma LetGoRow(s: Fleet, r: RelayId, kept: seq<nat>, gone: seq<nat>, i: nat)
    requires FlightsOk(s) && Accounted(s) && r in s.flights && i < |s.status|
    requires var f := s.flights[r]; kept + gone == f.Marked()
    ensures var t := s.(status := SetProcessed(s.status, kept), lost := Bump(s.lost, gone), flights := s.flights - {r});
            t.sent[i] == t.lost[i] + if t.status[i].Processed? || InFlight(t, i) then 1 else 0
  {
    var f := s.flights[r];
    var t := s.(status := SetProcessed(s.status, kept), lost := Bump(s.lost, gone), flights := s.flights - {r});
    if i in f.Marked() {
      assert InFlight(s, i) && LockedBy(s, r, i);
      InOneHalf(f, kept, gone, i);
      if InFlight(t, i) {
        var q :| q in t.flights && i in t.flights[q].Marked();
        assert LockedBy(s, q, i);
        assert false;
      }
    } else {
      assert i !in kept && i !in gone by {
        assert forall x :: x in kept ==> x in kept + gone;
        assert forall x :: x in gone ==> x in kept + gone;
      }
      if InFlight(s, i) {
        var q :| q in s.flights && i in s.flights[q].Marked();
        assert i in t.flights[q].Marked();
      }
      if InFlight(t, i) {
        var q :| q in t.flights && i in t.flights[q].Marked();
        assert i in s.flights[q].Marked();
      }
    }
  }

  lemma InOneHalf(f: Flight, kept: seq<nat>, gone: seq<nat>, i: nat)
    requires f.done <= |f.batch| && Distinct(f.batch) && kept + gone == f.Marked()
    requires i in f.Marked()
    ensures i in kept <==> i !in gone
  {
    assert Distinct(f.Marked());
    if i in kept {
      HalvesDistinct(kept, gone, i);
    }
    assert i in kept + gone;
  }

  lemma HalvesDistinct(kept: seq<nat>, gone: seq<nat>, i: nat)
    requires Distinct(kept + gone) && i in kept
    ensures i !in gone
  {
    var j :| 0 <= j < |kept| && kept[j] == i;
    forall k | 0 <= k < |gone| ensures gone[k] != i {
      assert (kept + gone)[j] != (kept + gone)[|kept| + k];
    }
  }

  /** A send that failed although the broker took the message: counted as sent and as lost. */
  lemma GhostSend(s: Fleet, ghosts: seq<nat>)
    requires FlightsOk(s) && Accounted(s)
    ensures var t := s.(sent := Bump(s.sent, ghosts), lost := Bump(s.lost, ghosts)); FlightsOk(t) && Accounted(t)
  {
    var t := s.(sent := Bump(s.sent, ghosts), lost := Bump(s.lost, ghosts));
    forall p, q, row | LockedBy(t, p, row) && LockedBy(t, q, row) ensures p == q {
      assert LockedBy(s, p, row) && LockedBy(s, q, row);
    }
    forall i | 0 <= i < |t.status| ensures InFlight(t, i) == InFlight(s, i) {
    }
  }

  lemma StepKeeps(s: Fleet, step: Step)
    requires FlightsOk(s) && Accounted(s) && Enabled(s, step)
    ensures FlightsOk(Next(s, step)) && Accounted(Next(s, step))
  {
    match step
    case AddRow => AddRowKeeps(s);
    case Select(_, _) => SelectKeeps(s, step);
    case Send(_) => SendKeeps(s, step);
    case SendFails(r, delivered) =>
      var f := s.flights[r];
      var ghosts := if delivered then [f.batch[f.done]] else [];
      LetGo(s, r, f.Marked(), []);
      var t := s.(status := SetProcessed(s.status, f.Marked()), lost := Bump(s.lost, []), flights := s.flights - {r});
      assert Bump(s.lost, []) == s.lost;
      GhostSend(t, ghosts);
    case Finish(r) =>
      var f := s.flights[r];
      assert f.Marked() == f.batch;
      LetGo(s, r, f.batch, []);
      assert Bump(s.lost, []) == s.lost;
    case Crash(r) =>
      var f := s.flights[r];
      LetGo(s, r, [], f.Marked());
      assert SetProcessed(s.status, []) == s.status;
  }

  lemma AddRowKeeps(s: Fleet)
    requires FlightsOk(s) && Accounted(s)
    ensures FlightsOk(Next(s, AddRow)) && Accounted(Next(s, AddRow))
  {
    var t := Next(s, AddRow);
    forall p, q, row | LockedBy(t, p, row) && LockedBy(t, q, row) ensures p == q {
      assert LockedBy(s, p, row) && LockedBy(s, q, row);
    }
    forall i | 0 <= i < |t.status| ensures
      t.sent[i] == t.lost[i] + if t.status[i].Processed? || InFlight(t, i) then 1 else 0
    {
      assert InFlight(t, i) == InFlight(s, i);
    }
  }

  ghost predicate Runs(s: Fleet, steps: seq<Step>, t: Fleet)
    requires FlightsOk(s) && Accounted(s)
    decreases |steps|
  {
    if steps == [] then s == t
    else
      && Enabled(s, steps[0])
      && (StepKeeps(s, steps[0]);
          Runs(Next(s, steps[0]), steps[1..], t))
  }

  /** A row is never lost from the table and never goes back from PROCESSED. */
  lemma {:induction false} RunFacts(s: Fleet, steps: seq<Step>, t: Fleet)
    requires FlightsOk(s) && Accounted(s) && Runs(s, steps, t)
    ensures FlightsOk(t) && Accounted(t)
    ensures |s.status| <= |t.status|
    ensures forall i :: 0 <= i < |s.status| && s.status[i].Processed? ==> t.status[i].Processed?
    decreases |steps|
  {
    if steps != [] {
      StepKeeps(s, steps[0]);
      RunFacts(Next(s, steps[0]), steps[1..], t);
    }
  }

  /** Does the step lose a send: a crash after a send, or a failed send that was delivered? */
  predicate Lossy(s: Fleet, step: Step) {
    match step
    case Crash(r) => r in s.flights && s.flights[r].done > 0
    case SendFails(_, delivered) => delivered
    case _ => false
  }

  ghost predicate RunsLossless(s: Fleet, steps: seq<Step>, t: Fleet)
    requires FlightsOk(s) && Accounted(s)
    decreases |steps|
  {
    if steps == [] then s == t
    else
      && Enabled(s, steps[0])
      && !Lossy(s, steps[0])
      && (StepKeeps(s, steps[0]);
          RunsLossless(Next(s, steps[0]), steps[1..], t))
  }

  /** A step that loses no send raises no loss count. */
  lemma LosslessStep(s: Fleet, step: Step)
    requires FlightsOk(s) && Enabled(s, step) && !Lossy(s, step)
    ensures forall i :: 0 <= i < |s.lost| ==> i < |Next(s, step).lost| && Next(s, step).lost[i] == s.lost[i]
    ensures forall i :: |s.lost| <= i < |Next(s, step).lost| ==> Next(s, step).lost[i] == 0
  {
    match step
    case Crash(r) =>
      assert s.flights[r].Marked() == [];
      assert Next(s, step).lost == Bump(s.lost, []) == s.lost;
    case SendFails(_, delivered) =>
      assert !delivered;
      assert Next(s, step).lost == Bump(s.lost, []) == s.lost;
    case AddRow => assert Next(s, step).lost == s.lost + [0];
    case _ => assert Next(s, step).lost == s.lost;
  }

  lemma {:induction false} LosslessRun(s: Fleet, steps: seq<Step>, t: Fleet)
    requires FlightsOk(s) && Accounted(s) && RunsLossless(s, steps, t)
    requires forall i :: 0 <= i < |s.lost| ==> s.lost[i] == 0
    ensures forall i :: 0 <= i < |t.lost| ==> t.lost[i] == 0
    decreases |steps|
  {
    if steps != [] {
      StepKeeps(s, steps[0]);
      LosslessStep(s, steps[0]);
      var u := Next(s, steps[0]);
      forall i | 0 <= i < |u.lost| ensures u.lost[i] == 0 {
        if i < |s.lost| {
          assert s.lost[i] == 0;
        }
      }
      LosslessRun(u, steps[1..], t);
    }
  }

  /**
   * Outbox delivery, for any number of instances and any crashes: every PROCESSED row was published,
   * in-flight batches are disjoint pending rows, and each row is published once, if it is PROCESSED or
   * in flight, plus once per lost send: exactly once or not at all if none of its sends was lost, and so
   * for every row when no step of the run loses a send.
   */
  lemma Delivery(steps: seq<Step>, t: Fleet)
    requires FlightsOk(Empty()) && Accounted(Empty()) && Runs(Empty(), steps, t)
    ensures forall i :: 0 <= i < |t.status| && t.status[i].Processed? ==> i < |t.sent| && t.sent[i] >= 1
    ensures forall r, q :: r in t.flights && q in t.flights && r != q ==>
              forall row :: row in t.flights[r].batch ==> row !in t.flights[q].batch
    ensures FlightsOk(t) && Accounted(t)
    ensures forall i :: 0 <= i < |t.status| && (t.lost[i] == 0 || RunsLossless(Empty(), steps, t)) ==>
              t.sent[i] == if t.status[i].Processed? || InFlight(t, i) then 1 else 0
  {
    RunFacts(Empty(), steps, t);
    if RunsLossless(Empty(), steps, t) {
      LosslessRun(Empty(), steps, t);
    }
    forall r, q, row | r in t.flights && q in t.flights && r != q && row in t.flights[r].batch
      ensures row !in t.flights[q].batch
    {
      assert LockedBy(t, r, row);
      if row in t.flights[q].batch {
        assert LockedBy(t, q, row);
      }
    }
  }

  // ---------------------------------------------------------------------------------------------
  // What the steps do, row by row
  // ---------------------------------------------------------------------------------------------

  /** `rows` become PROCESSED, and no other status changes. */
  predicate MarksExactly(s: Fleet, t: Fleet, rows: seq<nat>) {
    && |t.status| == |s.status|
    && forall i :: 0 <= i < |s.status| ==> t.status[i] == if i in rows then Processed else s.status[i]
  }

  /** One more send of each of `rows`, and of no other row. */
  predicate SendsExactly(s: Fleet, t: Fleet, rows: seq<nat>) {
    && |t.sent| == |s.sent|
    && forall i :: 0 <= i < |s.sent| ==> t.sent[i] == s.sent[i] + if i in rows then 1 else 0
  }

  /**
   * A send publishes the next row and marks nothing; a commit after the whole batch marks it all; a failed
   * send commits the rows before it; a crash marks nothing. Each of them is possible at any moment it
   * makes sense, and all but the send give the locks back.
   */
  lemma StepsExactly(s: Fleet, r: RelayId, delivered: bool)
    requires FlightsOk(s) && r in s.flights
    ensures var f := s.flights[r];
            && Enabled(s, Crash(r)) && MarksExactly(s, Next(s, Crash(r)), []) && SendsExactly(s, Next(s, Crash(r)), [])
            && r !in Next(s, Crash(r)).flights
    ensures var f := s.flights[r];
            if f.done == |f.batch| then
              && Enabled(s, Finish(r)) && MarksExactly(s, Next(s, Finish(r)), f.batch)
              && SendsExactly(s, Next(s, Finish(r)), []) && r !in Next(s, Finish(r)).flights
            else
              var failed, row := SendFails(r, delivered), f.batch[f.done];
              && Enabled(s, Send(r))
              && MarksExactly(s, Next(s, Send(r)), []) && SendsExactly(s, Next(s, Send(r)), [row])
              && Next(s, Send(r)).flights[r] == Flight(f.batch, f.done + 1)
              && Enabled(s, failed) && MarksExactly(s, Next(s, failed), f.batch[..f.done])
              && SendsExactly(s, Next(s, failed), if delivered then [row] else []) && r !in Next(s, failed).flights
  {
  }

  /** No row is stuck: from every reachable state a pending row can still be published and marked. */
  lemma EveryRowCanBeMarked(steps: seq<Step>, s: Fleet, i: nat) returns (t: Fleet)
    requires FlightsOk(Empty()) && Accounted(Empty()) && Runs(Empty(), steps, s) && i < |s.status|
    ensures FlightsOk(s) && Accounted(s)
    ensures exists more :: Runs(s, more, t)
    ensures i < |t.status| && t.status[i] == Processed
  {
    RunFacts(Empty(), steps, s);
    assert Runs(s, [], s);
    t := s;
    if s.status[i] == Unsent {
      var free := s;
      if Locked(s, i) {
        var holder :| LockedBy(s, holder, i);
        free := TakeStep(s, s, Crash(holder));
        HolderGone(s, holder, i);
      }
      t := SendFree(s, free, i);
    }
  }

  /** A pending row nobody holds: select it alone, send it, commit. */
  lemma SendFree(s: Fleet, free: Fleet, i: nat) returns (t: Fleet)
    requires FlightsOk(s) && Accounted(s) && FlightsOk(free) && Accounted(free) && (exists more :: Runs(s, more, free))
    requires i < |free.status| && free.status[i] == Unsent && !Locked(free, i)
    ensures exists more :: Runs(s, more, t)
    ensures i < |t.status| && t.status[i] == Processed
  {
    hide Runs, Locked;
    var r :| r !in free.flights by { SomeoneIsFree(free.flights.Keys); }
    var picked := TakeStep(s, free, Select(r, [i]));
    var sent := TakeStep(s, picked, Send(r));
    StepsExactly(sent, r, false);
    t := TakeStep(s, sent, Finish(r));
  }

  lemma HolderGone(s: Fleet, holder: RelayId, i: nat)
    requires FlightsOk(s) && LockedBy(s, holder, i)
    ensures !Locked(Next(s, Crash(holder)), i)
  {
    var t := Next(s, Crash(holder));
    if Locked(t, i) {
      var q :| LockedBy(t, q, i);
      assert LockedBy(s, q, i);
    }
  }

  lemma {:induction false} SomeoneIsFree(busy: set<RelayId>)
    ensures exists r: RelayId :: r !in busy
  {
    var r := Above(busy);
    assert r !in busy;
  }

  lemma {:induction false} Above(busy: set<RelayId>) returns (r: RelayId)
    ensures forall q :: q in busy ==> q < r
  {
    if busy == {} {
      r := 0;
    } else {
      var q :| q in busy;
      var rest := Above(busy - {q});
      r := if rest <= q then q + 1 else rest;
      assert forall p :: p in busy ==> p == q || p in busy - {q};
    }
  }

  lemma TakeStep(s0: Fleet, s: Fleet, step: Step) returns (t: Fleet)
    requires FlightsOk(s0) && Accounted(s0) && FlightsOk(s) && Accounted(s)
    requires (exists steps :: Runs(s0, steps, s)) && Enabled(s, step)
    ensures FlightsOk(t) && Accounted(t) && t == Next(s, step)
    ensures exists steps :: Runs(s0, steps, t)
  {
    StepKeeps(s, step);
    t := Next(s, step);
    var steps :| Runs(s0, steps, s);
    RunsAppend(s0, steps, s, step);
  }

  lemma {:induction false} RunsAppend(s: Fleet, steps: seq<Step>, t: Fleet, step: Step)
    requires FlightsOk(s) && Accounted(s) && Runs(s, steps, t) && FlightsOk(t) && Accounted(t) && Enabled(t, step)
    ensures Runs(s, steps + [step], Next(t, step))
    decreases |steps|
  {
    StepKeeps(t, step);
    if steps == [] {
      assert steps + [step] == [step] && ([step])[1..] == [];
    } else {
      assert (steps + [step])[1..] == steps[1..] + [step];
      StepKeeps(s, steps[0]);
      RunsAppend(Next(s, steps[0]), steps[1..], t, step);
    }
  }
}
