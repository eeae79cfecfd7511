/** A sorted set under one Redis key, with its time to live, against the full history of the key. */
module RedisKey {
  import opened Common
  import opened SlidingWindow

  datatype Key<+M> = Key(members: seq<M>, deadline: nat)

  function MembersOf<M>(key: Option<Key<M>>): seq<M> {
    if key.Some? then key.value.members else []
  }

  /** The history is in time order, and the key outlives the last add by at least a window. */
  ghost predicate Lives<M>(key: Option<Key<M>>, h: seq<Event>, span: nat) {
    && Ordered(h, 0, 0, span)
    && (key.Some? ==> LastAdd(h, 0) + span <= key.value.deadline)
  }

  lemma AddKeepsAlive<M>(key: Option<Key<M>>, z: seq<M>, h: seq<Event>, id: TxId, amount: nat, now: nat, span: nat)
    requires Lives(key, h, span) && Clock(h, 0) <= now
    ensures var h' := h + [Added(id, amount, now)];
            && Lives(Some(Key(z, now + span)), h', span) && Clock(h', 0) == now
            && Replay([], h', span) == Admit(Replay([], h, span), id, amount, now, span)
  {
    EventAppend(h, Added(id, amount, now), span);
  }

  /** A key past its deadline may vanish: no total at any time shows it. */
  lemma ExpiryIsUnobservable<M>(key: Option<Key<M>>, h: seq<Event>, now: nat, span: nat)
    requires Lives(key, h, span) && Clock(h, 0) <= now && key.Some? && key.value.deadline <= now
    ensures var h' := h + [Expired(now)];
            && Lives<M>(None, h', span) && Clock(h', 0) == now && Replay([], h', span) == []
            && forall t :: LogTotal(h', t, span) == LogTotal(h, t, span)
  {
    EventAppend(h, Expired(now), span);
    ExpiryLeavesTheLog(h, now, span);
  }
}
