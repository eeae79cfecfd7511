/**
 * services/processor/velocity_store.py over the Redis sorted sets it calls. The ghost `log` is the
 * full, unpruned history of each account; every call is specified against it.
 */
module VelocityStore {
  import opened Common
  import opened RedisKey
  import opened SlidingWindow
  import VelocityMember

  datatype Scored = Scored(member: string, score: nat)

  type Span = n: nat | 0 < n witness 1

  /** `str(transaction_id)`; only its injectivity matters. */
  function IdText(id: TxId): string {
    VelocityMember.Digits(id)
  }

  // The Redis commands the store uses.

  function ZRemRangeByScore(z: seq<Scored>, lo: int, hi: int): seq<Scored> {
    if z == [] then []
    else
      var rest := ZRemRangeByScore(z[1..], lo, hi);
      if lo <= z[0].score <= hi then rest else [z[0]] + rest
  }

  function ZRem(z: seq<Scored>, member: string): seq<Scored> {
    if z == [] then []
    else if z[0].member == member then ZRem(z[1..], member)
    else [z[0]] + ZRem(z[1..], member)
  }

  function ZAdd(z: seq<Scored>, member: string, score: nat): seq<Scored> {
    ZRem(z, member) + [Scored(member, score)]
  }

  function ZRange(z: seq<Scored>): seq<string> {
    if z == [] then [] else [z[0].member] + ZRange(z[1..])
  }

  // What the text members stand for.

  function MemberOf(id: TxId, amount: nat): string {
    VelocityMember.Member(IdText(id), amount)
  }

  function Encode(w: seq<Entry>): seq<Scored> {
    if w == [] then [] else [Scored(MemberOf(w[0].id, w[0].amount), w[0].at)] + Encode(w[1..])
  }

  lemma MemberOfInjective(id: TxId, amount: nat, id': TxId, amount': nat)
    requires MemberOf(id, amount) == MemberOf(id', amount')
    ensures id == id' && amount == amount'
  {
    VelocityMember.MemberInjective(IdText(id), amount, IdText(id'), amount');
    VelocityMember.DigitsInjective(id, id');
  }

  lemma {:induction false} EncodePrune(w: seq<Entry>, now: nat, span: nat)
    ensures ZRemRangeByScore(Encode(w), 0, now - span) == Encode(Prune(w, now, span))
  {
    if w != [] {
      EncodePrune(w[1..], now, span);
    }
  }

  /** Removing by text removes exactly the entries with that id and that amount. */
  lemma {:induction false} EncodeRemove(w: seq<Entry>, id: TxId, amount: nat)
    ensures ZRem(Encode(w), MemberOf(id, amount)) == Encode(Remove(w, id, amount))
  {
    if w != [] {
      EncodeRemove(w[1..], id, amount);
      if MemberOf(w[0].id, w[0].amount) == MemberOf(id, amount) {
        MemberOfInjective(w[0].id, w[0].amount, id, amount);
      }
    }
  }

  lemma {:induction false} EncodeAppend(w: seq<Entry>, e: Entry)
    ensures Encode(w + [e]) == Encode(w) + [Scored(MemberOf(e.id, e.amount), e.at)]
  {
    if w == [] {
      assert w + [e] == [e];
    } else {
      assert (w + [e])[1..] == w[1..] + [e];
      EncodeAppend(w[1..], e);
    }
  }

  lemma {:induction false} EncodeTotal(w: seq<Entry>)
    ensures VelocityMember.ExtractTotal(ZRange(Encode(w))) == Some(Total(w))
  {
    hide VelocityMember.ParseInt, VelocityMember.LastField, MemberOf;
    if w != [] {
      EncodeTotal(w[1..]);
      RangeOfEncode(w);
      AmountOfMember(w[0].id, w[0].amount);
      TotalOfFirst(MemberOf(w[0].id, w[0].amount), w[0].amount, ZRange(Encode(w[1..])));
    }
  }

  lemma AmountOfMember(id: TxId, amount: nat)
    ensures VelocityMember.ParseInt(VelocityMember.LastField(MemberOf(id, amount))) == Some(amount)
  {
    VelocityMember.MemberRoundTrip(IdText(id), amount);
  }

  lemma TotalOfFirst(first: string, amount: nat, rest: seq<string>)
    requires VelocityMember.ParseInt(VelocityMember.LastField(first)) == Some(amount)
    requires VelocityMember.ExtractTotal(rest).Some?
    ensures VelocityMember.ExtractTotal([first] + rest) == Some(amount + VelocityMember.ExtractTotal(rest).value)
  {
    hide VelocityMember.ParseInt, VelocityMember.LastField;
    var all := [first] + rest;
    assert all[0] == first && all[1..] == rest;
  }

  lemma RangeOfEncode(w: seq<Entry>)
    requires w != []
    ensures ZRange(Encode(w)) == [MemberOf(w[0].id, w[0].amount)] + ZRange(Encode(w[1..]))
  {
    hide MemberOf;
    var z := Encode(w);
    assert z[0] == Scored(MemberOf(w[0].id, w[0].amount), w[0].at) && z[1..] == Encode(w[1..]);
  }

  /** The pipeline on text members is prune-and-put on the entries they stand for. */
  lemma EncodeAdmit(w: seq<Entry>, id: TxId, amount: nat, now: nat, span: nat)
    ensures ZAdd(ZRemRangeByScore(Encode(w), 0, now - span), MemberOf(id, amount), now)
            == Encode(Admit(w, id, amount, now, span))
  {
    EncodePrune(w, now, span);
    EncodeRemove(Prune(w, now, span), id, amount);
    EncodeAppend(Remove(Prune(w, now, span), id, amount), Entry(id, amount, now));
  }

  type VelocityKey = Key<Scored>

  /** The key holds the text form of what the history replays to, and lives long enough. */
  ghost predicate KeyOk(key: Option<VelocityKey>, h: seq<Event>, span: nat) {
    MembersOf(key) == Encode(Replay([], h, span)) && Lives(key, h, span)
  }

  /** What the MULTI block leaves, and what its total is. */
  lemma AddedKey(key: Option<VelocityKey>, z: seq<Scored>, h: seq<Event>, id: TxId, amount: nat, now: nat, span: Span)
    requires KeyOk(key, h, span) && Clock(h, 0) <= now
    requires z == Encode(Admit(Replay([], h, span), id, amount, now, span))
    ensures var h' := h + [Added(id, amount, now)];
            && KeyOk(Some(Key(z, now + span)), h', span) && Clock(h', 0) == now
            && Replay([], h', span) == Admit(Replay([], h, span), id, amount, now, span)
            && Total(Replay([], h', span)) == LogTotal(h', now, span)
  {
    AddKeepsAlive(key, z, h, id, amount, now, span);
    ReturnedTotalIsLogTotal(h, id, amount, now, span);
  }

  lemma RolledBackKey(key: Option<VelocityKey>, h: seq<Event>, id: TxId, amount: nat, span: nat)
    requires KeyOk(key, h, span)
    ensures var h' := h + [RolledBack(id, amount)];
            && Replay([], h', span) == Remove(Replay([], h, span), id, amount)
            && Clock(h', 0) == Clock(h, 0) && (key.None? ==> KeyOk(None, h', span))
            && (key.Some? ==>
                  KeyOk(Some(Key(ZRem(key.value.members, MemberOf(id, amount)), key.value.deadline)), h', span))
  {
    EncodeRemove(Replay([], h, span), id, amount);
    EventAppend(h, RolledBack(id, amount), span);
  }

  /** The writes of the MULTI block on one sorted set: ZREMRANGEBYSCORE, then ZADD. */
  method PruneAndAdd(members: seq<Scored>, id: TxId, amount: Cents, now: nat, span: Span, ghost w: seq<Entry>)
    returns (z: seq<Scored>)
    requires members == Encode(w)
    ensures z == Encode(Admit(w, id, amount, now, span))
  {
    EncodeAdmit(w, id, amount, now, span);
    var windowStart := now - span;
    z := ZAdd(ZRemRangeByScore(members, 0, windowStart), MemberOf(id, amount), now);
  }

  /** ZRANGE 0 -1 and the sum of the parsed amounts. */
  method ReadTotal(members: seq<Scored>, ghost w: seq<Entry>) returns (total: Option<nat>)
    requires members == Encode(w)
    ensures total == Some(Total(w))
  {
    EncodeTotal(w);
    total := VelocityMember.ExtractTotal(ZRange(members));
  }

  class Store {
    const span: Span
    var keys: map<AccountId, VelocityKey>
    var clock: nat
    ghost var log: map<AccountId, seq<Event>>

    constructor (span: Span)
      ensures Valid() && this.span == span && clock == 0
      ensures keys == map[] && log == map[]
    {
      this.span := span;
      keys, clock, log := map[], 0, map[];
    }

    function Lookup(account: AccountId): Option<VelocityKey>
      reads this
    {
      if account in keys then Some(keys[account]) else None
    }

    ghost function Log(account: AccountId): seq<Event>
      reads this
    {
      if account in log then log[account] else []
    }

    /** What the sorted set of the account holds, entry by entry. */
    ghost function Window(account: AccountId): seq<Entry>
      reads this
    {
      Replay([], Log(account), span)
    }

    ghost predicate Valid()
      reads this
    {
      forall account: AccountId :: KeyOk(Lookup(account), Log(account), span) && Clock(Log(account), 0) <= clock
    }

    /** The MULTI block: prune, add, read all, set the time to live. None is a raised RedisError. */
    method CheckAndUpdateVelocity(account: AccountId, id: TxId, amount: Cents, now: nat, fault: RedisFault)
      returns (total: Option<nat>)
      requires Valid() && clock <= now
      modifies this
      ensures Valid() && old(clock) <= clock <= now
      ensures fault.NotApplied? ==> log == old(log) && keys == old(keys)
      ensures !fault.NotApplied? ==> log == old(log)[account := old(Log(account)) + [Added(id, amount, now)]]
      ensures !fault.NotApplied? ==> Window(account) == Admit(old(Window(account)), id, amount, now, span)
      ensures !fault.NotApplied? ==> account in keys && keys[account].deadline == now + span
      ensures !fault.NotApplied? ==> keys.Keys == old(keys).Keys + {account}
      ensures !fault.NotApplied? ==>
                forall other :: other in old(keys) && other != account ==> keys[other] == old(keys)[other]
      ensures fault.Works? ==> total == Some(LogTotal(Log(account), now, span))
      ensures fault.Works? ==> total == Some(Total(Window(account)))
      ensures !fault.Works? ==> total == None
    {
      if fault.NotApplied? {
        return None;
      }
      var z := PruneAndAdd(MembersOf(Lookup(account)), id, amount, now, span, Window(account));
      var sum := ReadTotal(z, Admit(Window(account), id, amount, now, span));
      AddedKey(Lookup(account), z, Log(account), id, amount, now, span);
      log := log[account := Log(account) + [Added(id, amount, now)]];
      keys := keys[account := Key(z, now + span)];
      clock := now;
      forall other: AccountId ensures KeyOk(Lookup(other), Log(other), span) && Clock(Log(other), 0) <= clock {
        if other != account {
          assert old(KeyOk(Lookup(other), Log(other), span) && Clock(Log(other), 0) <= clock);
        }
      }
      total := if fault.ReplyLost? then None else sum;
    }

    /** ZREM of one member; the time to live stays as it is. */
    method RollbackVelocity(account: AccountId, id: TxId, amount: Cents, fault: RedisFault)
      returns (raised: bool)
      requires Valid()
      modifies this
      ensures Valid() && clock == old(clock)
      ensures fault.NotApplied? ==> log == old(log) && keys == old(keys)
      ensures !fault.NotApplied? ==> log == old(log)[account := old(Log(account)) + [RolledBack(id, amount)]]
      ensures !fault.NotApplied? ==> Window(account) == Remove(old(Window(account)), id, amount)
      ensures keys.Keys == old(keys).Keys
      ensures forall other :: other in keys ==>
                && keys[other].deadline == old(keys)[other].deadline
                && (other != account ==> keys[other] == old(keys)[other])
      ensures raised <==> !fault.Works?
    {
      if fault.NotApplied? {
        return true;
      }
      RolledBackKey(Lookup(account), Log(account), id, amount, span);
      log := log[account := Log(account) + [RolledBack(id, amount)]];
      if account in keys {
        keys := keys[account := keys[account].(members := ZRem(keys[account].members, MemberOf(id, amount)))];
      }
      forall other: AccountId ensures KeyOk(Lookup(other), Log(other), span) && Clock(Log(other), 0) <= clock {
        if other != account {
          assert old(KeyOk(Lookup(other), Log(other), span) && Clock(Log(other), 0) <= clock);
        }
      }
      raised := fault.ReplyLost?;
    }

    /** Redis drops the key once its time to live is over. */
    method KeyExpires(account: AccountId, now: nat)
      requires Valid() && clock <= now
      requires account in keys && keys[account].deadline <= now
      modifies this
      ensures Valid() && clock == now && keys == old(keys) - {account}
      ensures log == old(log)[account := old(Log(account)) + [Expired(now)]]
      ensures forall t, other :: LogTotal(Log(other), t, span) == LogTotal(old(Log(other)), t, span)
    {
      ExpiryIsUnobservable(Lookup(account), Log(account), now, span);
      log := log[account := Log(account) + [Expired(now)]];
      keys := keys - {account};
      clock := now;
      forall other: AccountId ensures KeyOk(Lookup(other), Log(other), span) && Clock(Log(other), 0) <= clock {
        if other != account {
          assert old(KeyOk(Lookup(other), Log(other), span) && Clock(Log(other), 0) <= clock);
        }
      }
    }
  }
}
