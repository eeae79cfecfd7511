/**
 * POST /transactions (services/gateway/main.py, services/gateway/utils.py): a Redis lock that may
 * vanish at any moment over two unique columns, with any number of requests interleaved.
 */
module GatewayIdempotency {
  import opened Common
  import RateLimiter
  import SlidingWindow

  type RequestId = nat

  /** The value under `idempotency:tx:<key>`: the lock, or the id of the stored transaction. */
  datatype Cached = InProgress | Stored(id: TxId)

  datatype Response =
    | Created(id: TxId)               // 201
    | Conflict                      // 409
    | Accepted(cached: Option<TxId>)  // 202 with the cached value
    | AlreadyCreated                // 202 after an IntegrityError
    | ServerError                   // 500

  /** Where a request is. `Failed` has caught an exception and may still release its lock. */
  datatype Phase =
    | Arrived
    | LockHeld
    | Locked
    | Saved
    | Failed(lockAcquired: bool)
    | Replied(response: Response)
    | Dead

  datatype Request = Request(tx: RawTx, phase: Phase)

  datatype Gateway = Gateway(
    cache: map<string, Cached>,
    rows: map<TxId, RawTx>,
    outbox: seq<RawTx>,
    requests: map<RequestId, Request>)

  /** Writing the id back may fail with a RedisError, which is swallowed, or with anything else. */
  datatype CacheFault = CacheWorks | RedisError(applied: bool) | OtherError(applied: bool)

  datatype Step =
    | Arrive(r: RequestId, tx: RawTx)
    | TryLock(r: RequestId, redis: RedisFault)
    | ReadCache(r: RequestId, works: bool)
    | Save(r: RequestId, db: DbFault)
    | WriteCache(r: RequestId, cacheFault: CacheFault)
    | CleanUp(r: RequestId, applied: bool)
    | Die(r: RequestId)
    | Expire(key: string)

  predicate KeyUsed(rows: map<TxId, RawTx>, key: string) {
    exists x :: x in rows && rows[x].key == key
  }

  predicate Enabled(s: Gateway, step: Step) {
    match step
    case Arrive(r, _) => r !in s.requests
    case TryLock(r, _) => r in s.requests && s.requests[r].phase == Arrived
    case ReadCache(r, _) => r in s.requests && s.requests[r].phase == LockHeld
    case Save(r, _) => r in s.requests && s.requests[r].phase == Locked
    case WriteCache(r, _) => r in s.requests && s.requests[r].phase == Saved
    case CleanUp(r, _) => r in s.requests && s.requests[r].phase.Failed?
    case Die(r) => r in s.requests && !s.requests[r].phase.Replied?
    case Expire(_) => true
  }

  function Move(s: Gateway, r: RequestId, phase: Phase): Gateway
    requires r in s.requests
  {
    s.(requests := s.requests[r := s.requests[r].(phase := phase)])
  }

  /** SET key PENDING NX EX 60 */
  function LockedCache(cache: map<string, Cached>, key: string): map<string, Cached> {
    if key in cache then cache else cache[key := InProgress]
  }

  function Reply(cache: map<string, Cached>, key: string): Response {
    if key !in cache then Accepted(None)
    else if cache[key].InProgress? then Conflict
    else Accepted(Some(cache[key].id))
  }

  function Next(s: Gateway, step: Step): Gateway
    requires Enabled(s, step)
  {
    match step
    case Arrive(r, tx) => s.(requests := s.requests[r := Request(tx, Arrived)])
    case TryLock(r, redis) =>
      var key := s.requests[r].tx.key;
      (match redis
       case Works => Move(s, r, if key in s.cache then LockHeld else Locked).(cache := LockedCache(s.cache, key))
       case NotApplied => Move(s, r, Failed(false))
       case ReplyLost => Move(s, r, Failed(false)).(cache := LockedCache(s.cache, key)))
    case ReadCache(r, works) =>
      Move(s, r, if works then Replied(Reply(s.cache, s.requests[r].tx.key)) else Failed(false))
    case Save(r, db) =>
      var tx := s.requests[r].tx;
      if db.FailsBeforeCommit? then Move(s, r, Failed(true))
      else if tx.id in s.rows || KeyUsed(s.rows, tx.key) then Move(s, r, Replied(AlreadyCreated))
      else if tx.amount > INT_MAX then Move(s, r, Failed(true))
      else
        Move(s, r, if db.CommitReplyLost? then Failed(true) else Saved)
          .(rows := s.rows[tx.id := tx], outbox := s.outbox + [tx])
    case WriteCache(r, fault) =>
      var tx := s.requests[r].tx;
      var cache := if fault.CacheWorks? || fault.applied then s.cache[tx.key := Stored(tx.id)] else s.cache;
      Move(s, r, if fault.OtherError? then Failed(true) else Replied(Created(tx.id))).(cache := cache)
    case CleanUp(r, applied) =>
      var drop := s.requests[r].phase.lockAcquired && applied;
      Move(s, r, Replied(ServerError)).(cache := if drop then s.cache - {s.requests[r].tx.key} else s.cache)
    case Die(r) => Move(s, r, Dead)
    case Expire(key) => s.(cache := s.cache - {key})
  }

  ghost predicate Runs(s: Gateway, steps: seq<Step>, t: Gateway)
    decreases |steps|
  {
    if steps == [] then s == t
    else Enabled(s, steps[0]) && Runs(Next(s, steps[0]), steps[1..], t)
  }

  ghost predicate Reaches(s: Gateway, t: Gateway) {
    exists steps :: Runs(s, steps, t)
  }

  lemma ReachNext(s: Gateway, t: Gateway, step: Step)
    requires Reaches(s, t) && Enabled(t, step)
    ensures Reaches(s, Next(t, step))
  {
    var steps :| Runs(s, steps, t);
    RunsAppend(s, steps, t, step);
  }

  lemma {:induction false} RunsAppend(s: Gateway, steps: seq<Step>, t: Gateway, step: Step)
    requires Runs(s, steps, t) && Enabled(t, step)
    ensures Runs(s, steps + [step], Next(t, step))
    decreases |steps|
  {
    if steps == [] {
      assert steps + [step] == [step] && ([step])[1..] == [];
    } else {
      assert (steps + [step])[1..] == steps[1..] + [step];
      RunsAppend(Next(s, steps[0]), steps[1..], t, step);
    }
  }

  function Empty(): Gateway {
    Gateway(map[], map[], [], map[])
  }

  // ---------------------------------------------------------------------------------------------
  // The invariant
  // ---------------------------------------------------------------------------------------------

  /** One row per key, and one outbox event per row. */
  ghost predicate RowsOk(rows: map<TxId, RawTx>, outbox: seq<RawTx>) {
    && (forall x :: x in rows ==> rows[x].id == x)
    && (forall x, y :: x in rows && y in rows && rows[x].key == rows[y].key ==> x == y)
    && (forall x :: x in rows ==> exists i :: EventAt(outbox, x, i))
    && (forall i :: 0 <= i < |outbox| ==> outbox[i].id in rows && rows[outbox[i].id] == outbox[i])
    && (forall i, j :: 0 <= i < j < |outbox| ==> outbox[i].id != outbox[j].id)
  }

  ghost predicate EventAt(outbox: seq<RawTx>, x: TxId, i: int) {
    0 <= i < |outbox| && outbox[i].id == x
  }

  ghost predicate CacheOk(cache: map<string, Cached>, rows: map<TxId, RawTx>) {
    forall k :: k in cache && cache[k].Stored? ==> cache[k].id in rows && rows[cache[k].id].key == k
  }

  /** This request has stored its own transaction and answers, or will answer, 201. */
  predicate Owns(q: Request) {
    q.phase == Saved || (q.phase.Replied? && q.phase.response.Created?)
  }

  ghost predicate RequestsOk(rows: map<TxId, RawTx>, requests: map<RequestId, Request>) {
    && (forall r :: r in requests && Owns(requests[r]) ==>
          requests[r].tx.id in rows && rows[requests[r].tx.id] == requests[r].tx)
    && (forall r, q :: r in requests && q in requests && Owns(requests[r]) && Owns(requests[q]) && r != q ==>
          requests[r].tx.key != requests[q].tx.key)
    && (forall r :: r in requests ==> ReplyOk(rows, requests[r]))
  }

  ghost predicate Inv(s: Gateway) {
    RowsOk(s.rows, s.outbox) && CacheOk(s.cache, s.rows) && RequestsOk(s.rows, s.requests)
  }

  lemma InsertRow(rows: map<TxId, RawTx>, outbox: seq<RawTx>, tx: RawTx)
    requires RowsOk(rows, outbox) && tx.id !in rows && !KeyUsed(rows, tx.key)
    ensures RowsOk(rows[tx.id := tx], outbox + [tx])
  {
    var rows' := rows[tx.id := tx];
    forall x | x in rows' ensures exists i :: EventAt(outbox + [tx], x, i) {
      if x == tx.id {
        assert EventAt(outbox + [tx], x, |outbox|);
      } else {
        var i :| EventAt(outbox, x, i);
        assert EventAt(outbox + [tx], x, i);
      }
    }
  }

  lemma InsertKeepsOwners(s: Gateway, r: RequestId, phase: Phase)
    requires Inv(s) && r in s.requests && s.requests[r].phase == Locked && (phase == Saved || phase == Failed(true))
    requires var tx := s.requests[r].tx; tx.id !in s.rows && !KeyUsed(s.rows, tx.key)
    ensures var tx := s.requests[r].tx;
            RequestsOk(s.rows[tx.id := tx], s.requests[r := s.requests[r].(phase := phase)])
  {
    var tx := s.requests[r].tx;
    forall q | q in s.requests && Owns(s.requests[q]) ensures s.requests[q].tx.key != tx.key {
      assert s.rows[s.requests[q].tx.id] == s.requests[q].tx;
    }
  }

  predicate ReplyOk(rows: map<TxId, RawTx>, q: Request) {
    q.phase.Replied? ==>
      match q.phase.response
      case Created(id) => id == q.tx.id
      case Accepted(Some(id)) => id in rows && rows[id].key == q.tx.key
      case _ => true
  }

  /** A request that moves without becoming an owner, and with a proper reply, disturbs nothing. */
  lemma MoveKeeps(rows: map<TxId, RawTx>, requests: map<RequestId, Request>, r: RequestId, q: Request)
    requires RequestsOk(rows, requests) && ReplyOk(rows, q)
    requires Owns(q) ==> r in requests && Owns(requests[r]) && requests[r].tx == q.tx
    ensures RequestsOk(rows, requests[r := q])
  {
  }

  lemma SaveKeepsInv(s: Gateway, step: Step)
    requires Inv(s) && Enabled(s, step) && step.Save?
    ensures Inv(Next(s, step))
  {
    hide RowsOk, RequestsOk;
    var tx, db := s.requests[step.r].tx, step.db;
    if !db.FailsBeforeCommit? && tx.id !in s.rows && !KeyUsed(s.rows, tx.key) && tx.amount <= INT_MAX {
      InsertRow(s.rows, s.outbox, tx);
      InsertKeepsOwners(s, step.r, if db.CommitReplyLost? then Failed(true) else Saved);
    } else {
      MoveKeeps(s.rows, s.requests, step.r, Next(s, step).requests[step.r]);
    }
  }

  /** Only a stored transaction's own id is ever put in the cache. */
  lemma CacheKeeps(s: Gateway, step: Step)
    requires Inv(s) && Enabled(s, step) && !step.Save?
    ensures Next(s, step).rows == s.rows && Next(s, step).outbox == s.outbox
    ensures CacheOk(Next(s, step).cache, s.rows)
  {
    hide RowsOk, KeyUsed, ReplyOk, Reply;
  }

  lemma RequestsKeep(s: Gateway, step: Step)
    requires Inv(s) && Enabled(s, step) && !step.Save?
    ensures RequestsOk(s.rows, Next(s, step).requests)
  {
    hide RowsOk, KeyUsed;
    if !step.Expire? {
      MoveKeeps(s.rows, s.requests, step.r, Next(s, step).requests[step.r]);
    }
  }

  lemma StepKeepsInv(s: Gateway, step: Step)
    requires Inv(s) && Enabled(s, step)
    ensures Inv(Next(s, step))
  {
    if step.Save? {
      SaveKeepsInv(s, step);
    } else {
      CacheKeeps(s, step);
      RequestsKeep(s, step);
    }
  }

  lemma {:induction false} RunKeepsInv(s: Gateway, steps: seq<Step>, t: Gateway)
    requires Inv(s) && Runs(s, steps, t)
    ensures Inv(t)
    decreases |steps|
  {
    if steps != [] {
      StepKeepsInv(s, steps[0]);
      RunKeepsInv(Next(s, steps[0]), steps[1..], t);
    }
  }

  /** A stored row, and so the id a key stands for, never changes again. */
  lemma {:induction false} RowsStay(s: Gateway, steps: seq<Step>, t: Gateway, x: TxId)
    requires Runs(s, steps, t) && x in s.rows
    ensures x in t.rows && t.rows[x] == s.rows[x]
    decreases |steps|
  {
    if steps != [] {
      RowsStay(Next(s, steps[0]), steps[1..], t, x);
    }
  }

  predicate Answered201(s: Gateway, r: RequestId) {
    r in s.requests && s.requests[r].phase.Replied? && s.requests[r].phase.response.Created?
  }

  /**
   * Under any interleaving, lock expiry, Redis failure, database failure or crash: a key has at most
   * one row, a row has exactly one event, a key is answered 201 at most once and with the id of its
   * row, a cached id is the id of the row, and so is every id answered from the cache.
   */
  lemma Idempotency(steps: seq<Step>, t: Gateway)
    requires Runs(Empty(), steps, t)
    ensures forall x, y :: x in t.rows && y in t.rows && t.rows[x].key == t.rows[y].key ==> x == y
    ensures forall x :: x in t.rows ==> exists i :: EventAt(t.outbox, x, i) && t.outbox[i] == t.rows[x]
    ensures forall i, j :: 0 <= i < j < |t.outbox| ==> t.outbox[i].id != t.outbox[j].id
    ensures forall r, q :: r != q && Answered201(t, r) && Answered201(t, q) ==>
              t.requests[r].tx.key != t.requests[q].tx.key
    ensures forall r :: Answered201(t, r) ==>
              var x := t.requests[r].phase.response.id; x in t.rows && t.rows[x] == t.requests[r].tx
    ensures forall r, x :: r in t.requests && t.requests[r].phase == Replied(Accepted(Some(x))) ==>
              x in t.rows && t.rows[x].key == t.requests[r].tx.key
    ensures forall k :: k in t.cache && t.cache[k].Stored? ==>
              t.cache[k].id in t.rows && t.rows[t.cache[k].id].key == k
  {
    hide Runs, Next, Enabled;
    RunKeepsInv(Empty(), steps, t);
    forall x | x in t.rows ensures exists i :: EventAt(t.outbox, x, i) && t.outbox[i] == t.rows[x] {
      var i :| EventAt(t.outbox, x, i);
      assert t.outbox[i] == t.rows[x];
    }
  }

  // ---------------------------------------------------------------------------------------------
  // The handler
  // ---------------------------------------------------------------------------------------------

  datatype SaveResult = SavedOk | IntegrityError | OtherSaveError

  function AfterSave(result: SaveResult): Phase {
    match result
    case SavedOk => Saved
    case IntegrityError => Replied(AlreadyCreated)
    case OtherSaveError => Failed(true)
  }

  datatype Faults = Faults(lock: RedisFault, readWorks: bool, db: DbFault, write: CacheFault, cleanUpApplied: bool)

  const NO_FAULTS := Faults(Works, true, NoDbFault, CacheWorks, true)

  /** The rate limiter's refusal, or what the handler behind it answers. */
  datatype Answer = Refused(verdict: RateLimiter.Verdict) | Answered(response: Response)

  /** Some stored transaction has the id or the key. */
  predicate Taken(rows: map<TxId, RawTx>, tx: RawTx) {
    exists x :: x in rows && (x == tx.id || rows[x].key == tx.key)
  }

  /**
   * The answer, the cache and the table when nothing fails: 409 while the key is in progress, 202 with the
   * stored id, 202 without one when the id or the key is taken, 500 when the amount does not fit its column
   * and the key is free again, and 201 with the id stored in both otherwise.
   */
  predicate AnswersExactly(
    cache: map<string, Cached>, rows: map<TxId, RawTx>, tx: RawTx, response: Response,
    cache': map<string, Cached>, rows': map<TxId, RawTx>)
  {
    var known, fits := tx.key in cache, tx.amount <= 2_147_483_647;
    && (known && cache[tx.key] == InProgress ==> response == Conflict)
    && (known && cache[tx.key] != InProgress ==> response == Accepted(Some(cache[tx.key].id)))
    && (!known && Taken(rows, tx) ==> response == AlreadyCreated)
    && (!known && !Taken(rows, tx) && !fits ==> response == ServerError)
    && (!known && !Taken(rows, tx) && fits ==> response == Created(tx.id))
    && rows' == (if response.Created? then rows[tx.id := tx] else rows)
    && cache' == (if response.Created? then cache[tx.key := Stored(tx.id)]
                  else if response.AlreadyCreated? then cache[tx.key := InProgress]
                  else cache)
  }

  /** The same of a request that has the lock. */
  predicate SavesExactly(rows: map<TxId, RawTx>, tx: RawTx, response: Response, rows': map<TxId, RawTx>) {
    && (response == AlreadyCreated <==> Taken(rows, tx))
    && (response == ServerError <==> !Taken(rows, tx) && tx.amount > 2_147_483_647)
    && (response == Created(tx.id) <==> !Taken(rows, tx) && tx.amount <= 2_147_483_647)
    && rows' == if response == Created(tx.id) then rows[tx.id := tx] else rows
  }

  lemma FreshAnswers(
    cache: map<string, Cached>, rows: map<TxId, RawTx>, tx: RawTx, response: Response, rows': map<TxId, RawTx>)
    requires tx.key !in cache && SavesExactly(rows, tx, response, rows')
    ensures var locked := cache[tx.key := InProgress];
            AnswersExactly(cache, rows, tx, response,
                           if response.Created? then locked[tx.key := Stored(tx.id)]
                           else if response.ServerError? then locked - {tx.key} else locked, rows')
  {
    assert cache[tx.key := InProgress] - {tx.key} == cache;
    assert cache[tx.key := InProgress][tx.key := Stored(tx.id)] == cache[tx.key := Stored(tx.id)];
  }

  lemma KnownAnswers(cache: map<string, Cached>, rows: map<TxId, RawTx>, tx: RawTx, response: Response)
    requires tx.key in cache
    requires cache[tx.key] == InProgress ==> response == Conflict
    requires forall id :: cache[tx.key] == Stored(id) ==> response == Accepted(Some(id))
    ensures AnswersExactly(cache, rows, tx, response, cache, rows)
  {
    if cache[tx.key] != InProgress {
      assert cache[tx.key] == Stored(cache[tx.key].id);
    }
  }

  lemma ArriveAlone(s0: Gateway, tx: RawTx)
    requires s0.requests == map[]
    ensures Reaches(s0, s0.(requests := map[0 := Request(tx, Arrived)]))
  {
    assert Runs(s0, [], s0);
    ReachNext(s0, s0, Arrive(0, tx));
    assert Next(s0, Arrive(0, tx)) == s0.(requests := map[0 := Request(tx, Arrived)]);
  }

  class Api {
    var cache: map<string, Cached>
    var rows: map<TxId, RawTx>
    var outbox: seq<RawTx>

    constructor ()
      ensures View(map[]) == Empty()
    {
      cache, rows, outbox := map[], map[], [];
    }

    /** The shared state, with the given requests in progress. */
    ghost function View(requests: map<RequestId, Request>): Gateway
      reads this
    {
      Gateway(cache, rows, outbox, requests)
    }

    /** The state while this request is the only one. */
    ghost function Alone(tx: RawTx, phase: Phase): Gateway
      reads this
    {
      View(map[0 := Request(tx, phase)])
    }

    /** The transaction row and its outbox row, in one database transaction. */
    method StoreTransaction(tx: RawTx, fault: DbFault) returns (result: SaveResult)
      modifies this`rows, this`outbox
      ensures fault.FailsBeforeCommit? ==> result.OtherSaveError? && rows == old(rows) && outbox == old(outbox)
      ensures !fault.FailsBeforeCommit? && (tx.id in old(rows) || KeyUsed(old(rows), tx.key)) ==>
                result.IntegrityError? && rows == old(rows) && outbox == old(outbox)
      ensures !fault.FailsBeforeCommit? && tx.id !in old(rows) && !KeyUsed(old(rows), tx.key) ==>
                if tx.amount > INT_MAX then result.OtherSaveError? && rows == old(rows) && outbox == old(outbox)
                else
                  && rows == old(rows)[tx.id := tx] && outbox == old(outbox) + [tx]
                  && result == if fault.CommitReplyLost? then OtherSaveError else SavedOk
      ensures Alone(tx, AfterSave(result)) == Next(old(Alone(tx, Locked)), Save(0, fault))
    {
      if fault.FailsBeforeCommit? {
        return OtherSaveError;
      }
      if tx.id in rows || KeyUsed(rows, tx.key) {
        return IntegrityError;
      }
      if tx.amount > INT_MAX {
        return OtherSaveError;
      }
      rows := rows[tx.id := tx];
      outbox := outbox + [tx];
      return if fault.CommitReplyLost? then OtherSaveError else SavedOk;
    }

    method AcquireLock(tx: RawTx, fault: RedisFault, ghost s0: Gateway)
      returns (cacheLockAcquired: bool, raised: bool)
      requires Reaches(s0, Alone(tx, Arrived))
      modifies this`cache
      ensures raised <==> !fault.Works?
      ensures cacheLockAcquired <==> !raised && tx.key !in old(cache)
      ensures cache == if fault.NotApplied? || tx.key in old(cache) then old(cache)
                       else old(cache)[tx.key := InProgress]
      ensures Reaches(s0, Alone(tx, if raised then Failed(false) else if cacheLockAcquired then Locked else LockHeld))
    {
      hide Reaches, Runs, KeyUsed, Reply;
      ReachNext(s0, Alone(tx, Arrived), TryLock(0, fault));
      var free := tx.key !in cache;
      if !fault.NotApplied? && free {
        cache := cache[tx.key := InProgress];
      }
      cacheLockAcquired, raised := fault.Works? && free, !fault.Works?;
      assert Alone(tx, if raised then Failed(false) else if cacheLockAcquired then Locked else LockHeld)
             == Next(old(Alone(tx, Arrived)), TryLock(0, fault));
    }

    method WriteBack(tx: RawTx, fault: CacheFault) returns (raised: bool)
      modifies this`cache
      ensures raised <==> fault.OtherError?
      ensures cache == if fault == CacheWorks || fault.applied then old(cache)[tx.key := Stored(tx.id)] else old(cache)
      ensures var phase := if raised then Failed(true) else Replied(Created(tx.id));
              Alone(tx, phase) == Next(old(Alone(tx, Saved)), WriteCache(0, fault))
    {
      if fault.CacheWorks? || fault.applied {
        cache := cache[tx.key := Stored(tx.id)];
      }
      raised := fault.OtherError?;
    }

    /** The generic exception handler: release the lock if it is ours, and answer 500. */
    method HandleException(tx: RawTx, cacheLockAcquired: bool, applied: bool, ghost s0: Gateway)
      returns (response: Response)
      requires Reaches(s0, Alone(tx, Failed(cacheLockAcquired)))
      modifies this`cache
      ensures response == ServerError
      ensures cache == if cacheLockAcquired && applied then old(cache) - {tx.key} else old(cache)
      ensures Reaches(s0, Alone(tx, Replied(response)))
    {
      hide Reaches, Runs, KeyUsed, Reply;
      ReachNext(s0, Alone(tx, Failed(cacheLockAcquired)), CleanUp(0, applied));
      if cacheLockAcquired && applied {
        cache := cache - {tx.key};
      }
      response := ServerError;
      assert Alone(tx, Replied(response)) == Next(old(Alone(tx, Failed(cacheLockAcquired))), CleanUp(0, applied));
    }

    method ReadCached(tx: RawTx, works: bool, ghost s0: Gateway) returns (response: Response, raised: bool)
      requires Reaches(s0, Alone(tx, LockHeld))
      ensures raised <==> !works
      ensures !raised && tx.key in cache && cache[tx.key] == InProgress ==> response == Conflict
      ensures !raised ==> forall id :: tx.key in cache && cache[tx.key] == Stored(id) ==> response == Accepted(Some(id))
      ensures !raised && tx.key !in cache ==> response == Accepted(None)
      ensures Reaches(s0, Alone(tx, if raised then Failed(false) else Replied(response)))
    {
      hide Reaches, Runs, KeyUsed;
      ReachNext(s0, Alone(tx, LockHeld), ReadCache(0, works));
      response, raised := Reply(cache, tx.key), !works;
      assert Alone(tx, if raised then Failed(false) else Replied(response))
             == Next(Alone(tx, LockHeld), ReadCache(0, works));
    }

    /** With the lock held: store the two rows, then put the id in the cache. */
    method SaveThenCache(tx: RawTx, faults: Faults, ghost s0: Gateway) returns (response: Response, raised: bool)
      requires Reaches(s0, Alone(tx, Locked))
      modifies this
      ensures Reaches(s0, Alone(tx, if raised then Failed(true) else Replied(response)))
      ensures !raised ==> response == Created(tx.id) || response == AlreadyCreated
      ensures !raised && response.Created? ==> rows == old(rows)[tx.id := tx] && outbox == old(outbox) + [tx]
      ensures raised ==>
                || (rows == old(rows) && outbox == old(outbox))
                || (rows == old(rows)[tx.id := tx] && outbox == old(outbox) + [tx])
      ensures faults == NO_FAULTS ==>
                SavesExactly(old(rows), tx, if raised then ServerError else response, rows)
                && cache == if !raised && response.Created? then old(cache)[tx.key := Stored(tx.id)] else old(cache)
      ensures !raised && response.AlreadyCreated? ==>
                rows == old(rows) && outbox == old(outbox) && (tx.id in rows || KeyUsed(rows, tx.key))
    {
      ReachNext(s0, Alone(tx, Locked), Save(0, faults.db));
      var result := StoreTransaction(tx, faults.db);
      assert Reaches(s0, Alone(tx, AfterSave(result)));
      if result.IntegrityError? {
        return AlreadyCreated, false;
      }
      if result.OtherSaveError? {
        return ServerError, true;
      }
      ReachNext(s0, Alone(tx, Saved), WriteCache(0, faults.write));
      raised := WriteBack(tx, faults.write);
      response := Created(tx.id);
    }

    /**
     * One admitted request running alone is one run of the protocol, so everything proved about runs
     * holds of it; and only a 201, or a 500 whose commit was not seen, adds its row and event.
     */
    method HandleAdmitted(tx: RawTx, faults: Faults) returns (response: Response)
      modifies this
      ensures Reaches(old(View(map[])), Alone(tx, Replied(response)))
      ensures response.Created? ==>
                response.id == tx.id && rows == old(rows)[tx.id := tx] && outbox == old(outbox) + [tx]
      ensures response.Conflict? || response.Accepted? || response.AlreadyCreated? ==>
                rows == old(rows) && outbox == old(outbox)
      ensures response.AlreadyCreated? ==> tx.id in rows || KeyUsed(rows, tx.key)
      ensures response.ServerError? ==>
                || (rows == old(rows) && outbox == old(outbox))
                || (rows == old(rows)[tx.id := tx] && outbox == old(outbox) + [tx])
      ensures faults == NO_FAULTS ==> AnswersExactly(old(cache), old(rows), tx, response, cache, rows)
    {
      hide Next, Enabled, Runs, Reaches, SavesExactly, AnswersExactly;
      ghost var s0 := View(map[]);
      ArriveAlone(s0, tx);
      var cacheLockAcquired, raised := AcquireLock(tx, faults.lock, s0);
      if !raised {
        if cacheLockAcquired {
          response, raised := SaveThenCache(tx, faults, s0);
          if faults == NO_FAULTS {
            FreshAnswers(old(cache), old(rows), tx, if raised then ServerError else response, rows);
          }
        } else {
          response, raised := ReadCached(tx, faults.readWorks, s0);
          if faults == NO_FAULTS {
            KnownAnswers(cache, rows, tx, response);
          }
        }
      }
      if raised {
        response := HandleException(tx, cacheLockAcquired, faults.cleanUpApplied, s0);
      }
    }

    /**
     * The whole handler: the rate limiter sees every request and lets through exactly those that find
     * the window below the limit; a refused request touches neither the lock nor the tables.
     */
    method CreateTransaction(
      limiter: RateLimiter.Limiter, client: string, tx: RawTx, ns: nat, ms: nat,
      limiterFault: RateLimiter.Fault, faults: Faults)
      returns (answer: Answer)
      requires limiter.Valid() && limiter.clock <= ms
      modifies this, limiter
      ensures limiter.Valid() && limiter.clock <= ms
      ensures limiterFault.NoFault? || limiterFault.applied ==>
                limiter.log == old(limiter.log)[client := old(limiter.Log(client)) + [SlidingWindow.Added(ns, 1, ms)]]
      ensures answer.Answered? <==>
                && limiterFault.NoFault?
                && SlidingWindow.LogTotal(old(limiter.Log(client)), ms, limiter.span) < limiter.limit
      ensures answer.Refused? ==> View(map[]) == old(View(map[]))
      ensures answer == Refused(RateLimiter.TooManyRequests) <==>
                && limiterFault.NoFault?
                && SlidingWindow.LogTotal(old(limiter.Log(client)), ms, limiter.span) >= limiter.limit
      ensures answer == Refused(RateLimiter.Unavailable) <==> limiterFault.RedisError?
      ensures answer.Answered? ==> Reaches(old(View(map[])), Alone(tx, Replied(answer.response)))
      ensures answer.Answered? && answer.response.Created? ==>
                answer.response.id == tx.id && rows == old(rows)[tx.id := tx] && outbox == old(outbox) + [tx]
      ensures answer.Answered? && !answer.response.Created? && !answer.response.ServerError? ==>
                rows == old(rows) && outbox == old(outbox)
      ensures answer.Answered? && faults == NO_FAULTS ==>
                AnswersExactly(old(cache), old(rows), tx, answer.response, cache, rows)
    {
      var verdict := limiter.CheckRateLimit(client, ns, ms, limiterFault);
      if !verdict.Admitted? {
        return Refused(verdict);
      }
      var response := HandleAdmitted(tx, faults);
      answer := Answered(response);
    }
  }
}
