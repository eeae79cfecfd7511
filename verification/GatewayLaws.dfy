/**
 * What a client sees of the idempotency key, told by the contents of the cache: who gets the lock, who is
 * told to wait, and who gets the stored id back.
 */
module GatewayLaws {
  import opened Common
  import opened GatewayIdempotency

  // ---------------------------------------------------------------------------------------------
  // One call of Redis
  // ---------------------------------------------------------------------------------------------

  /** Nothing but the entry of `key` differs. */
  ghost predicate OnlyKey(before: map<string, Cached>, after: map<string, Cached>, key: string) {
    forall k :: k != key ==> (k in before <==> k in after) && (k in before ==> before[k] == after[k])
  }

  predicate PhaseIs(s: Gateway, r: RequestId, phase: Phase) {
    r in s.requests && s.requests[r].phase == phase
  }

  /** The first request of a free key gets the lock and leaves it in the cache; any other is turned away. */
  lemma LockExactly(s: Gateway, r: RequestId)
    requires PhaseIs(s, r, Arrived)
    ensures forall redis :: Enabled(s, TryLock(r, redis))
    ensures var key, t := s.requests[r].tx.key, Next(s, TryLock(r, Works));
            && OnlyKey(s.cache, t.cache, key) && t.rows == s.rows && t.outbox == s.outbox && key in t.cache
            && (if key in s.cache then PhaseIs(t, r, LockHeld) && t.cache[key] == s.cache[key]
                else PhaseIs(t, r, Locked) && t.cache[key] == InProgress)
    ensures var t := Next(s, TryLock(r, NotApplied)); t.cache == s.cache && PhaseIs(t, r, Failed(false))
    ensures var key, t := s.requests[r].tx.key, Next(s, TryLock(r, ReplyLost));
            && OnlyKey(s.cache, t.cache, key) && PhaseIs(t, r, Failed(false)) && key in t.cache
            && t.cache[key] == if key in s.cache then s.cache[key] else InProgress
  {
  }

  /** A request turned away is told 409 while the key is in progress, and 202 with the id once it is stored. */
  lemma AnswerExactly(s: Gateway, r: RequestId)
    requires PhaseIs(s, r, LockHeld)
    ensures Enabled(s, ReadCache(r, true)) && Enabled(s, ReadCache(r, false))
    ensures var key, t := s.requests[r].tx.key, Next(s, ReadCache(r, true));
            && t.cache == s.cache && t.rows == s.rows && t.outbox == s.outbox
            && (key in s.cache && s.cache[key] == InProgress ==> PhaseIs(t, r, Replied(Conflict)))
            && (forall id :: key in s.cache && s.cache[key] == Stored(id) ==>
                  PhaseIs(t, r, Replied(Accepted(Some(id)))))
            && (key !in s.cache ==> PhaseIs(t, r, Replied(Accepted(None))))
    ensures var t := Next(s, ReadCache(r, false)); t.cache == s.cache && PhaseIs(t, r, Failed(false))
  {
  }

  /** After the commit the id goes into the cache and 201 is answered, also if Redis refuses the write. */
  lemma StoredExactly(s: Gateway, r: RequestId, applied: bool)
    requires PhaseIs(s, r, Saved)
    ensures forall fault :: Enabled(s, WriteCache(r, fault))
    ensures var tx, t := s.requests[r].tx, Next(s, WriteCache(r, CacheWorks));
            t.cache == s.cache[tx.key := Stored(tx.id)] && PhaseIs(t, r, Replied(Created(tx.id)))
    ensures var tx, t := s.requests[r].tx, Next(s, WriteCache(r, RedisError(applied)));
            && t.cache == (if applied then s.cache[tx.key := Stored(tx.id)] else s.cache)
            && PhaseIs(t, r, Replied(Created(tx.id)))
    ensures var tx, t := s.requests[r].tx, Next(s, WriteCache(r, OtherError(applied)));
            && t.cache == (if applied then s.cache[tx.key := Stored(tx.id)] else s.cache)
            && PhaseIs(t, r, Failed(true))
  {
  }

  /** A failed request answers 500 and frees the key if and only if it had the lock and the delete works. */
  lemma ReleaseExactly(s: Gateway, r: RequestId, hadLock: bool, applied: bool)
    requires PhaseIs(s, r, Failed(hadLock))
    ensures Enabled(s, CleanUp(r, applied))
    ensures var key, t := s.requests[r].tx.key, Next(s, CleanUp(r, applied));
            && PhaseIs(t, r, Replied(ServerError)) && OnlyKey(s.cache, t.cache, key)
            && (if hadLock && applied then key !in t.cache else t.cache == s.cache)
  {
  }

  /** A key may expire and an unanswered request may die at any moment. */
  lemma AnythingMayStop(s: Gateway, r: RequestId, key: string)
    ensures Enabled(s, Expire(key)) && key !in Next(s, Expire(key)).cache
    ensures OnlyKey(s.cache, Next(s, Expire(key)).cache, key) && Next(s, Expire(key)).rows == s.rows
    ensures r in s.requests && !s.requests[r].phase.Replied? ==>
              Enabled(s, Die(r)) && Next(s, Die(r)).cache == s.cache && Next(s, Die(r)).rows == s.rows
  {
  }

  // ---------------------------------------------------------------------------------------------
  // Runs in which the key is neither expired nor deleted
  // ---------------------------------------------------------------------------------------------

  predicate Removes(s: Gateway, step: Step, key: string) {
    || step == Expire(key)
    || (step.CleanUp? && step.applied && step.r in s.requests
        && s.requests[step.r].phase == Failed(true) && s.requests[step.r].tx.key == key)
  }

  ghost predicate KeptRuns(s: Gateway, steps: seq<Step>, t: Gateway, key: string)
    decreases |steps|
  {
    if steps == [] then s == t
    else
      && Enabled(s, steps[0]) && !Removes(s, steps[0], key)
      && KeptRuns(Next(s, steps[0]), steps[1..], t, key)
  }

  lemma {:induction false} KeptRunIsRun(s: Gateway, steps: seq<Step>, t: Gateway, key: string)
    requires KeptRuns(s, steps, t, key)
    ensures Runs(s, steps, t)
    decreases |steps|
  {
    if steps != [] {
      KeptRunIsRun(Next(s, steps[0]), steps[1..], t, key);
    }
  }

  /** The request has the key and got the lock. */
  predicate Won(q: Request, key: string) {
    q.tx.key == key && (q.phase == Locked || q.phase == Saved || q.phase == Failed(true))
  }

  predicate Holds(q: Request, key: string) {
    q.tx.key == key && (q.phase == Locked || q.phase == Saved)
  }

  /** One winner at most, and while it holds the lock the cache says so. */
  ghost predicate LockOk(cache: map<string, Cached>, requests: map<RequestId, Request>, key: string) {
    && (forall r :: r in requests && Won(requests[r], key) ==> key in cache)
    && (forall r, q :: r in requests && q in requests && Won(requests[r], key) && Won(requests[q], key) ==> r == q)
    && (forall r :: r in requests && Holds(requests[r], key) ==> key in cache && cache[key] == InProgress)
  }

  /** Only a free key makes a new winner, and only the winner overwrites the entry. */
  lemma MoveKeepsLock(
    cache: map<string, Cached>, cache': map<string, Cached>, requests: map<RequestId, Request>, r: RequestId,
    q: Request, key: string)
    requires LockOk(cache, requests, key) && (key in cache ==> key in cache')
    requires Won(q, key) ==> key in cache' && (key !in cache || (r in requests && Won(requests[r], key)))
    requires Holds(q, key) ==> cache'[key] == InProgress
    requires key in cache && cache'[key] != cache[key] ==> r in requests && Won(requests[r], key) && !Holds(q, key)
    ensures LockOk(cache', requests[r := q], key)
  {
  }

  lemma StepKeepsLock(s: Gateway, step: Step, key: string)
    requires LockOk(s.cache, s.requests, key) && Enabled(s, step) && !Removes(s, step, key)
    ensures LockOk(Next(s, step).cache, Next(s, step).requests, key)
  {
    var t := Next(s, step);
    if step.Expire? {
      assert t.cache == s.cache - {step.key};
    } else {
      MoveFacts(s, step, key);
      MoveKeepsLock(s.cache, t.cache, s.requests, step.r, t.requests[step.r], key);
    }
  }

  lemma MoveFacts(s: Gateway, step: Step, key: string)
    requires Enabled(s, step) && !Removes(s, step, key) && !step.Expire?
    requires step.r in s.requests && Won(s.requests[step.r], key) ==> key in s.cache
    requires step.r in s.requests && Holds(s.requests[step.r], key) ==> s.cache[key] == InProgress
    ensures var t := Next(s, step);
            && step.r in t.requests && t.requests == s.requests[step.r := t.requests[step.r]]
            && var q := t.requests[step.r];
               && (key in s.cache ==> key in t.cache)
               && (Won(q, key) ==>
                     key in t.cache && (key !in s.cache || (step.r in s.requests && Won(s.requests[step.r], key))))
               && (Holds(q, key) ==> t.cache[key] == InProgress)
               && (key in s.cache && t.cache[key] != s.cache[key] ==>
                     step.r in s.requests && Won(s.requests[step.r], key) && !Holds(q, key))
  {
    hide KeyUsed, Reply;
  }

  lemma {:induction false} RunKeepsLock(s: Gateway, steps: seq<Step>, t: Gateway, key: string)
    requires LockOk(s.cache, s.requests, key) && KeptRuns(s, steps, t, key)
    ensures LockOk(t.cache, t.requests, key)
    decreases |steps|
  {
    hide LockOk, Next, Enabled;
    if steps != [] {
      StepKeepsLock(s, steps[0], key);
      RunKeepsLock(Next(s, steps[0]), steps[1..], t, key);
    }
  }

  /** A new request is turned away and answered, with Redis working. */
  function TurnedAway(s: Gateway, q: RequestId): Gateway
    requires PhaseIs(s, q, Arrived) && s.requests[q].tx.key in s.cache
  {
    Next(Next(s, TryLock(q, Works)), ReadCache(q, true))
  }

  /**
   * While one request holds the lock of a key that was neither expired nor deleted, no other request has it,
   * and every other request with that key is answered 409.
   */
  lemma InProgressIsConflict(steps: seq<Step>, s: Gateway, r: RequestId, q: RequestId, key: string)
    requires KeptRuns(Empty(), steps, s, key)
    requires r in s.requests && Holds(s.requests[r], key) && q in s.requests && q != r && s.requests[q].tx.key == key
    ensures !Holds(s.requests[q], key)
    ensures s.requests[q].phase == LockHeld ==> PhaseIs(Next(s, ReadCache(q, true)), q, Replied(Conflict))
    ensures s.requests[q].phase == Arrived ==> key in s.cache && PhaseIs(TurnedAway(s, q), q, Replied(Conflict))
  {
    RunKeepsLock(Empty(), steps, s, key);
    if s.requests[q].phase == LockHeld {
      AnswerExactly(s, q);
    }
    if s.requests[q].phase == Arrived {
      LockExactly(s, q);
      AnswerExactly(Next(s, TryLock(q, Works)), q);
    }
  }

  /** The answers a request can have while the cache holds `id` all along. */
  predicate RetryOk(q: Request, id: TxId) {
    match q.phase
    case Arrived => true
    case LockHeld => true
    case Failed(hadLock) => !hadLock
    case Replied(response) => response == Accepted(Some(id)) || response == ServerError
    case Dead => true
    case _ => false
  }

  /** The cache holds the id of the one that was answered 201, and later requests see nothing else. */
  ghost predicate StoredOk(s: Gateway, earlier: set<RequestId>, r: RequestId, key: string, id: TxId) {
    && Inv(s) && Answered201(s, r) && s.requests[r].tx.key == key && s.requests[r].phase.response.id == id
    && key in s.cache && s.cache[key] == Stored(id)
    && forall q :: q in s.requests && q !in earlier && s.requests[q].tx.key == key ==> RetryOk(s.requests[q], id)
  }

  lemma StepKeepsStored(s: Gateway, step: Step, earlier: set<RequestId>, r: RequestId, key: string, id: TxId)
    requires StoredOk(s, earlier, r, key, id) && Enabled(s, step) && !Removes(s, step, key)
    ensures StoredOk(Next(s, step), earlier, r, key, id)
  {
    StepKeepsInv(s, step);
    NobodyElseSaves(s, step, r, key);
    StoredStays(s, step, earlier, r, key, id);
  }

  /** Another request that is about to write its id under the key would own a second row of the key. */
  lemma NobodyElseSaves(s: Gateway, step: Step, r: RequestId, key: string)
    requires Inv(s) && Answered201(s, r) && s.requests[r].tx.key == key && Enabled(s, step)
    ensures step.WriteCache? ==> s.requests[step.r].tx.key != key
  {
    hide RowsOk, CacheOk, ReplyOk;
    if step.WriteCache? {
      assert Owns(s.requests[step.r]) && Owns(s.requests[r]);
    }
  }

  lemma StoredStays(s: Gateway, step: Step, earlier: set<RequestId>, r: RequestId, key: string, id: TxId)
    requires StoredOk(s, earlier, r, key, id) && Enabled(s, step) && !Removes(s, step, key)
    requires step.WriteCache? ==> s.requests[step.r].tx.key != key
    requires Inv(Next(s, step))
    ensures StoredOk(Next(s, step), earlier, r, key, id)
  {
    hide Inv, KeyUsed;
  }

  lemma {:induction false} RunKeepsStored(
    s: Gateway, steps: seq<Step>, t: Gateway, earlier: set<RequestId>, r: RequestId, key: string, id: TxId)
    requires StoredOk(s, earlier, r, key, id) && KeptRuns(s, steps, t, key)
    ensures StoredOk(t, earlier, r, key, id)
    decreases |steps|
  {
    hide StoredOk, Next, Enabled;
    if steps != [] {
      StepKeepsStored(s, steps[0], earlier, r, key, id);
      RunKeepsStored(Next(s, steps[0]), steps[1..], t, earlier, r, key, id);
    }
  }

  /**
   * After a 201 whose cache write worked, and until the key is expired or deleted, the cache holds that id;
   * a later request with the key is answered 202 with it, or 500 if Redis failed it, and never stores anything.
   */
  lemma RetryGetsTheId(
    before: seq<Step>, s: Gateway, r: RequestId, steps: seq<Step>, t: Gateway, q: RequestId)
    requires Runs(Empty(), before, s) && PhaseIs(s, r, Saved)
    requires KeptRuns(Next(s, WriteCache(r, CacheWorks)), steps, t, s.requests[r].tx.key)
    requires q !in s.requests && q in t.requests && t.requests[q].tx.key == s.requests[r].tx.key
    ensures var tx := s.requests[r].tx;
            && tx.key in t.cache && t.cache[tx.key] == Stored(tx.id)
            && (t.requests[q].phase.Replied? ==>
                  || t.requests[q].phase.response == Accepted(Some(tx.id))
                  || t.requests[q].phase.response == ServerError)
            && (t.requests[q].phase == Arrived ==> PhaseIs(TurnedAway(t, q), q, Replied(Accepted(Some(tx.id)))))
  {
    hide Runs, KeptRuns, RowsOk, RequestsOk, CacheOk, KeyUsed;
    var tx, u := s.requests[r].tx, Next(s, WriteCache(r, CacheWorks));
    RunKeepsInv(Empty(), before, s);
    StoredExactly(s, r, true);
    StepKeepsInv(s, WriteCache(r, CacheWorks));
    RunKeepsStored(u, steps, t, s.requests.Keys, r, tx.key, tx.id);
    if t.requests[q].phase == Arrived {
      LockExactly(t, q);
      AnswerExactly(Next(t, TryLock(q, Works)), q);
    }
  }

  /** A key that is free is not blocked by earlier failures: the next request gets the lock. */
  lemma FreeKeyCanBeLocked(s: Gateway, q: RequestId)
    requires PhaseIs(s, q, Arrived) && s.requests[q].tx.key !in s.cache
    ensures PhaseIs(Next(s, TryLock(q, Works)), q, Locked)
  {
    LockExactly(s, q);
  }
}
