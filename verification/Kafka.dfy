/**
 * Topics with partitions, and consumer groups with manual offset commits. A consumer fetches one
 * message, handles it, and commits its position; after a crash or a broken loop it restarts at the
 * committed offset.
 */
module Kafka {
  import opened Common

  type Topic<M> = seq<seq<M>>

  /** `Ready` holds the processor's result between scoring and sending; it is lost in a crash. */
  datatype Work = Idle | Fetched | Ready(result: ScoredTx) | Handled

  datatype Consumer = Consumer(committed: nat, position: nat, work: Work)

  const FreshConsumer := Consumer(0, 0, Idle)

  function Append<M>(t: Topic<M>, p: nat, m: M): Topic<M>
    requires p < |t|
  {
    t[p := t[p] + [m]]
  }

  ghost predicate At<M>(t: Topic<M>, p: int, i: int, m: M) {
    0 <= p < |t| && 0 <= i < |t[p]| && t[p][i] == m
  }

  ghost predicate InLog<M>(t: Topic<M>, m: M) {
    exists p, i :: At(t, p, i, m)
  }

  predicate ConsumerOk(c: Consumer, size: nat) {
    && c.position <= size
    && c.position == if c.work.Idle? then c.committed else c.committed + 1
  }

  ghost predicate GroupOk<M>(t: Topic<M>, g: seq<Consumer>) {
    |g| == |t| && forall p :: 0 <= p < |t| ==> ConsumerOk(g[p], |t[p]|)
  }

  /** Offset `i` is handled: below the committed offset, or the current message once it is done. */
  predicate Covers(c: Consumer, i: int) {
    i < c.committed || (c.work.Handled? && i < c.position)
  }

  ghost predicate HandledAt<M>(t: Topic<M>, g: seq<Consumer>, p: int, i: int, m: M) {
    At(t, p, i, m) && p < |g| && Covers(g[p], i)
  }

  ghost predicate IsHandled<M>(t: Topic<M>, g: seq<Consumer>, m: M) {
    exists p, i :: HandledAt(t, g, p, i, m)
  }

  /** The message lies at or above a committed offset, so it will be delivered (again). */
  ghost predicate UnackedAt<M>(t: Topic<M>, g: seq<Consumer>, p: int, i: int, m: M) {
    At(t, p, i, m) && p < |g| && g[p].committed <= i
  }

  ghost predicate Unacked<M>(t: Topic<M>, g: seq<Consumer>, m: M) {
    exists p, i :: UnackedAt(t, g, p, i, m)
  }

  // The consumer's moves.

  predicate CanFetch<M>(t: Topic<M>, g: seq<Consumer>, p: nat) {
    p < |t| && p < |g| && g[p].work.Idle? && g[p].position < |t[p]|
  }

  function Fetch(g: seq<Consumer>, p: nat): seq<Consumer>
    requires p < |g|
  {
    g[p := g[p].(position := g[p].position + 1, work := Fetched)]
  }

  /** The message partition `p` is working on. */
  predicate Working<M>(t: Topic<M>, g: seq<Consumer>, p: nat) {
    p < |t| && p < |g| && !g[p].work.Idle? && 1 <= g[p].position <= |t[p]|
  }

  function Current<M>(t: Topic<M>, g: seq<Consumer>, p: nat): M
    requires Working(t, g, p)
  {
    t[p][g[p].position - 1]
  }

  function SetWork(g: seq<Consumer>, p: nat, work: Work): seq<Consumer>
    requires p < |g|
  {
    g[p := g[p].(work := work)]
  }

  function Ack(g: seq<Consumer>, p: nat): seq<Consumer>
    requires p < |g|
  {
    g[p := g[p].(committed := g[p].position, work := Idle)]
  }

  function Restart(g: seq<Consumer>, p: nat): seq<Consumer>
    requires p < |g|
  {
    g[p := g[p].(position := g[p].committed, work := Idle)]
  }

  // ---------------------------------------------------------------------------------------------

  lemma AppendFacts<M>(t: Topic<M>, p: nat, m: M)
    requires p < |t|
    ensures InLog(Append(t, p, m), m)
    ensures forall x :: InLog(t, x) ==> InLog(Append(t, p, m), x)
    ensures forall x :: InLog(Append(t, p, m), x) ==> InLog(t, x) || x == m
  {
    var t' := Append(t, p, m);
    assert At(t', p, |t[p]|, m);
    forall x | InLog(t, x) ensures InLog(t', x) {
      var q, i :| At(t, q, i, x);
      assert At(t', q, i, x);
    }
    forall x | InLog(t', x) ensures InLog(t, x) || x == m {
      var q, i :| At(t', q, i, x);
      if q != p || i < |t[p]| {
        assert At(t, q, i, x);
      }
    }
  }

  lemma AppendGroup<M>(t: Topic<M>, g: seq<Consumer>, p: nat, m: M)
    requires GroupOk(t, g) && p < |t|
    ensures GroupOk(Append(t, p, m), g)
    ensures forall x :: IsHandled(Append(t, p, m), g, x) ==> IsHandled(t, g, x)
  {
    var t' := Append(t, p, m);
    forall x | IsHandled(t', g, x) ensures IsHandled(t, g, x) {
      var q, i :| HandledAt(t', g, q, i, x);
      assert ConsumerOk(g[q], |t[q]|);
      assert HandledAt(t, g, q, i, x);
    }
  }

  lemma FetchGroup<M>(t: Topic<M>, g: seq<Consumer>, p: nat)
    requires GroupOk(t, g) && CanFetch(t, g, p)
    ensures GroupOk(t, Fetch(g, p))
    ensures forall x :: IsHandled(t, Fetch(g, p), x) ==> IsHandled(t, g, x)
  {
    forall x | IsHandled(t, Fetch(g, p), x) ensures IsHandled(t, g, x) {
      var q, i :| HandledAt(t, Fetch(g, p), q, i, x);
      assert HandledAt(t, g, q, i, x);
    }
  }

  lemma WorkGroup<M>(t: Topic<M>, g: seq<Consumer>, p: nat, work: Work)
    requires GroupOk(t, g) && p < |g| && !g[p].work.Idle? && !work.Idle?
    ensures Working(t, g, p) && GroupOk(t, SetWork(g, p, work)) && InLog(t, Current(t, g, p))
    ensures forall x :: IsHandled(t, SetWork(g, p, work), x) ==>
              IsHandled(t, g, x) || (work.Handled? && x == Current(t, g, p))
  {
    assert ConsumerOk(g[p], |t[p]|);
    assert At(t, p, g[p].position - 1, Current(t, g, p));
    forall x | IsHandled(t, SetWork(g, p, work), x)
      ensures IsHandled(t, g, x) || (work.Handled? && x == Current(t, g, p))
    {
      var q, i :| HandledAt(t, SetWork(g, p, work), q, i, x);
      if q != p || i < g[p].committed {
        assert HandledAt(t, g, q, i, x);
      }
    }
  }

  /** The offset commit acknowledges exactly what is already handled. */
  lemma AckGroup<M>(t: Topic<M>, g: seq<Consumer>, p: nat)
    requires GroupOk(t, g) && p < |g| && g[p].work.Handled?
    ensures GroupOk(t, Ack(g, p))
    ensures forall x :: IsHandled(t, Ack(g, p), x) ==> IsHandled(t, g, x)
  {
    assert ConsumerOk(g[p], |t[p]|);
    forall x | IsHandled(t, Ack(g, p), x) ensures IsHandled(t, g, x) {
      var q, i :| HandledAt(t, Ack(g, p), q, i, x);
      assert HandledAt(t, g, q, i, x);
    }
  }

  lemma RestartGroup<M>(t: Topic<M>, g: seq<Consumer>, p: nat)
    requires GroupOk(t, g) && p < |g|
    ensures GroupOk(t, Restart(g, p))
    ensures forall x :: IsHandled(t, Restart(g, p), x) ==> IsHandled(t, g, x)
  {
    assert ConsumerOk(g[p], |t[p]|);
    forall x | IsHandled(t, Restart(g, p), x) ensures IsHandled(t, g, x) {
      var q, i :| HandledAt(t, Restart(g, p), q, i, x);
      assert HandledAt(t, g, q, i, x);
    }
  }

  /** A message of the log is handled or still due. */
  lemma HandledOrDue<M>(t: Topic<M>, g: seq<Consumer>, m: M)
    requires GroupOk(t, g) && InLog(t, m)
    ensures IsHandled(t, g, m) || Unacked(t, g, m)
  {
    var p, i :| At(t, p, i, m);
    if g[p].committed <= i {
      assert UnackedAt(t, g, p, i, m);
    } else {
      assert HandledAt(t, g, p, i, m);
    }
  }
}
