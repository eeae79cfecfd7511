/** services/gateway/settlement_consumer.py: the unguarded status overwrite and its consumer loop. */
module Settlement {
  import opened Common

  datatype TxRow = TxRow(raw: RawTx, status: TxStatus, reason: Option<Reason>)

  /** UPDATE transactions SET status, reason WHERE transaction_id = ...; no row, no effect. */
  function Overwrite(rows: map<TxId, TxRow>, e: Settled): map<TxId, TxRow> {
    if e.tx in rows then rows[e.tx := rows[e.tx].(status := e.status, reason := e.reason)] else rows
  }

  function OverwriteAll(rows: map<TxId, TxRow>, log: seq<Settled>): map<TxId, TxRow> {
    if log == [] then rows else Overwrite(OverwriteAll(rows, log[..|log| - 1]), log[|log| - 1])
  }

  /** One verdict per transaction, as the ledger guarantees. */
  ghost predicate OneVerdictEach(log: seq<Settled>) {
    forall i, j :: 0 <= i < |log| && 0 <= j < |log| && log[i].tx == log[j].tx ==>
      log[i].status == log[j].status && log[i].reason == log[j].reason
  }

  /** The last message of a transaction decides; without one its row is untouched. */
  lemma {:induction false} FinalRow(rows: map<TxId, TxRow>, log: seq<Settled>, x: TxId)
    requires x in rows && OneVerdictEach(log)
    ensures OverwriteAll(rows, log).Keys == rows.Keys
    ensures forall i :: 0 <= i < |log| && log[i].tx == x ==>
              OverwriteAll(rows, log)[x] == rows[x].(status := log[i].status, reason := log[i].reason)
    ensures (forall i :: 0 <= i < |log| ==> log[i].tx != x) ==> OverwriteAll(rows, log)[x] == rows[x]
  {
    if log != [] {
      var init := log[..|log| - 1];
      assert forall i :: 0 <= i < |init| ==> init[i] == log[i];
      FinalRow(rows, init, x);
    }
  }

  /**
   * When each transaction has one verdict, the overwrite needs no guard: any other delivery of the
   * same messages, reordered or repeated, leaves the same table.
   */
  lemma DeliveryOrderIsIrrelevant(rows: map<TxId, TxRow>, a: seq<Settled>, b: seq<Settled>)
    requires OneVerdictEach(a) && OneVerdictEach(b)
    requires forall e :: e in a <==> e in b
    ensures OverwriteAll(rows, a) == OverwriteAll(rows, b)
  {
    OverwriteKeys(rows, a);
    OverwriteKeys(rows, b);
    forall x | x in rows ensures OverwriteAll(rows, a)[x] == OverwriteAll(rows, b)[x] {
      FinalRow(rows, a, x);
      FinalRow(rows, b, x);
      if i :| 0 <= i < |a| && a[i].tx == x {
        assert a[i] in b;
        var j :| 0 <= j < |b| && b[j] == a[i];
      } else {
        forall j | 0 <= j < |b| ensures b[j].tx != x {
          assert b[j] in a;
        }
      }
    }
  }

  lemma {:induction false} OverwriteKeys(rows: map<TxId, TxRow>, log: seq<Settled>)
    ensures OverwriteAll(rows, log).Keys == rows.Keys
  {
    if log != [] {
      OverwriteKeys(rows, log[..|log| - 1]);
    }
  }

  /** A message that fails the schema is None. */
  function Payloads(log: seq<Option<Settled>>): seq<Settled> {
    if log == [] then []
    else
      var last := log[|log| - 1];
      Payloads(log[..|log| - 1]) + if last.Some? then [last.value] else []
  }

  /** The update fails unseen, its reply is lost, or the offset commit fails. */
  datatype Fault = NoFault | UpdateFails | ReplyLost | AckFails

  /** The offset moves over a message exactly when its update, if it is valid, and the offset commit work. */
  predicate Acks(message: Option<Settled>, fault: Fault) {
    !fault.AckFails? && (message.Some? ==> !fault.UpdateFails? && !fault.ReplyLost?)
  }

  class StatusUpdater {
    var rows: map<TxId, TxRow>
    var committed: nat

    constructor (rows: map<TxId, TxRow>)
      ensures this.rows == rows && committed == 0
    {
      this.rows, committed := rows, 0;
    }

    method UpdateStatus(e: Settled, fault: Fault) returns (raised: bool)
      modifies this`rows
      ensures rows == if fault.UpdateFails? then old(rows) else Overwrite(old(rows), e)
      ensures raised <==> fault.UpdateFails? || fault.ReplyLost?
    {
      if fault.UpdateFails? {
        return true;
      }
      if e.tx in rows {
        rows := rows[e.tx := rows[e.tx].(status := e.status, reason := e.reason)];
      }
      raised := fault.ReplyLost?;
    }

    /**
     * The consumer loop from the committed offset, until the log ends or an exception leaves it.
     * The table is the messages up to `applied`, at most one of them not yet acknowledged.
     */
    method ReadTransactionStatus(log: seq<Option<Settled>>, faults: nat -> Fault) returns (applied: nat)
      requires committed <= |log|
      modifies this
      ensures old(committed) <= committed <= applied <= |log| && applied <= committed + 1
      ensures rows == OverwriteAll(old(rows), Payloads(log[old(committed)..applied]))
      ensures forall i :: old(committed) <= i < committed ==> Acks(log[i], faults(i))
      ensures committed < |log| ==> !Acks(log[committed], faults(committed))
      ensures committed < |log| ==> (applied == committed <==> log[committed].Some? && faults(committed).UpdateFails?)
    {
      applied := committed;
      var position := committed;
      while position < |log|
        invariant old(committed) <= committed == position == applied <= |log|
        invariant forall i :: old(committed) <= i < position ==> Acks(log[i], faults(i))
        invariant rows == OverwriteAll(old(rows), Payloads(log[old(committed)..position]))
      {
        OverwriteNext(old(rows), log, old(committed), position);
        if log[position].Some? {
          var raised := UpdateStatus(log[position].value, faults(position));
          applied := if faults(position).UpdateFails? then position else position + 1;
          if raised {
            return;
          }
        }
        applied := position + 1;
        if faults(position).AckFails? {
          return;
        }
        position := position + 1;
        committed := position;
      }
    }
  }

  lemma OverwriteNext(rows: map<TxId, TxRow>, log: seq<Option<Settled>>, from: nat, i: nat)
    requires from <= i < |log|
    ensures var before := OverwriteAll(rows, Payloads(log[from..i]));
            OverwriteAll(rows, Payloads(log[from..i + 1]))
            == if log[i].Some? then Overwrite(before, log[i].value) else before
  {
    assert log[from..i + 1][..i - from] == log[from..i];
    var p, q := Payloads(log[from..i]), Payloads(log[from..i + 1]);
    if log[i].Some? {
      assert q == p + [log[i].value] && q[..|q| - 1] == p;
    } else {
      assert q == p;
    }
  }
}
