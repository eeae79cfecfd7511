/**
 * services/gateway/rate_limiter.py: the sorted set of one identifier holds one member per request,
 * refused requests included. It is a sliding window whose members are the nanosecond stamps, each
 * counting one.
 */
module RateLimiter {
  import opened Common
  import opened RedisKey
  import opened SlidingWindow

  datatype Verdict = Admitted | TooManyRequests | Unavailable | Broken

  datatype Fault = NoFault | RedisError(applied: bool) | OtherError(applied: bool)

  /** Requests are adds of one; the key may also expire. Nothing is ever rolled back. */
  predicate RequestLog(h: seq<Event>) {
    forall i :: 0 <= i < |h| ==> !h[i].RolledBack? && (h[i].Added? ==> h[i].amount == 1)
  }

  type RateKey = Key<Entry>

  ghost predicate KeyOk(key: Option<RateKey>, h: seq<Event>, span: nat) {
    MembersOf(key) == Replay([], h, span) && RequestLog(h) && Lives(key, h, span)
  }

  lemma RequestedKey(key: Option<RateKey>, h: seq<Event>, ns: nat, ms: nat, span: nat)
    requires KeyOk(key, h, span) && Clock(h, 0) <= ms
    ensures var z := Prune(MembersOf(key), ms, span);
            && |z| == LogTotal(h, ms, span)
            && KeyOk(Some(Key(Put(z, ns, 1, ms), ms + span)), h + [Added(ns, 1, ms)], span)
            && Clock(h + [Added(ns, 1, ms)], 0) == ms
  {
    UnitTotal(h, ms, span);
    WindowRefinesLog(h, ms, span);
    AddKeepsAlive(key, Put(Prune(MembersOf(key), ms, span), ns, 1, ms), h, ns, 1, ms, span);
  }

  class Limiter {
    const limit: nat
    const span: nat
    var keys: map<string, RateKey>
    var clock: nat
    ghost var log: map<string, seq<Event>>

    constructor (limit: nat, window: nat)
      ensures Valid() && this.limit == limit && span == window * 1000
      ensures log == map[] && clock == 0
    {
      this.limit, span := limit, window * 1000;
      keys, clock, log := map[], 0, map[];
    }

    function Lookup(identifier: string): Option<RateKey>
      reads this
    {
      if identifier in keys then Some(keys[identifier]) else None
    }

    ghost function Log(identifier: string): seq<Event>
      reads this
    {
      if identifier in log then log[identifier] else []
    }

    ghost predicate Valid()
      reads this
    {
      forall identifier: string ::
        KeyOk(Lookup(identifier), Log(identifier), span) && Clock(Log(identifier), 0) <= clock
    }

    /**
     * Prune, count, add, set the time to live; refuse when the count before the add reached the
     * limit. The count is that of the full log: neither pruning nor expiry can be observed.
     */
    method CheckRateLimit(identifier: string, ns: nat, ms: nat, fault: Fault) returns (verdict: Verdict)
      requires Valid() && clock <= ms
      modifies this
      ensures Valid() && old(clock) <= clock <= ms
      ensures !fault.NoFault? && !fault.applied ==> log == old(log) && keys == old(keys)
      ensures fault.NoFault? || fault.applied ==>
                log == old(log)[identifier := old(Log(identifier)) + [Added(ns, 1, ms)]]
      ensures fault.NoFault? || fault.applied ==>
                && keys.Keys == old(keys).Keys + {identifier} && keys[identifier].deadline == ms + span
                && forall other :: other in old(keys) && other != identifier ==> keys[other] == old(keys)[other]
      ensures fault.NoFault? ==>
                verdict == if LogTotal(old(Log(identifier)), ms, span) < limit then Admitted else TooManyRequests
      ensures fault.NoFault? ==>
                var before := old(Log(identifier));
                (verdict == Admitted <==> |Stamps(before, |before|, ms, span)| < limit)
      ensures fault.RedisError? ==> verdict == Unavailable
      ensures fault.OtherError? ==> verdict == Broken
    {
      hide Stamps;
      if !fault.NoFault? && !fault.applied {
        return if fault.RedisError? then Unavailable else Broken;
      }
      RequestedKey(Lookup(identifier), Log(identifier), ns, ms, span);
      TotalIsStamps(Log(identifier), 0, 0, ms, span);
      var z := Prune(MembersOf(Lookup(identifier)), ms, span);
      var requests := |z|;
      log := log[identifier := Log(identifier) + [Added(ns, 1, ms)]];
      keys := keys[identifier := Key(Put(z, ns, 1, ms), ms + span)];
      clock := ms;
      forall other: string ensures KeyOk(Lookup(other), Log(other), span) && Clock(Log(other), 0) <= clock {
        if other != identifier {
          assert old(KeyOk(Lookup(other), Log(other), span) && Clock(Log(other), 0) <= clock);
        }
      }
      match fault
      case RedisError(_) => verdict := Unavailable;
      case OtherError(_) => verdict := Broken;
      case NoFault =>
        if requests >= limit {
          verdict := TooManyRequests;
        } else {
          verdict := Admitted;
        }
    }

    /** Redis drops the key once its time to live is over. */
    method KeyExpires(identifier: string, now: nat)
      requires Valid() && clock <= now
      requires identifier in keys && keys[identifier].deadline <= now
      modifies this
      ensures Valid() && clock == now && keys == old(keys) - {identifier}
      ensures log == old(log)[identifier := old(Log(identifier)) + [Expired(now)]]
      ensures forall t, other :: LogTotal(Log(other), t, span) == LogTotal(old(Log(other)), t, span)
    {
      ExpiryIsUnobservable(Lookup(identifier), Log(identifier), now, span);
      log := log[identifier := Log(identifier) + [Expired(now)]];
      keys := keys - {identifier};
      clock := now;
      forall other: string ensures KeyOk(Lookup(other), Log(other), span) && Clock(Log(other), 0) <= clock {
        if other != identifier {
          assert old(KeyOk(Lookup(other), Log(other), span) && Clock(Log(other), 0) <= clock);
        }
      }
    }
  }

  predicate Units(w: seq<Entry>) {
    forall e :: e in w ==> e.amount == 1
  }

  lemma {:induction false} UnitSize(w: seq<Entry>)
    requires Units(w)
    ensures Total(w) == |w|
  {
    if w != [] {
      assert w[0] in w;
      assert Units(w[1..]) by { assert forall e :: e in w[1..] ==> e in w; }
      UnitSize(w[1..]);
    }
  }

  lemma {:induction false} UnitReplay(w: seq<Entry>, h: seq<Event>, span: nat)
    requires Units(w) && RequestLog(h)
    ensures Units(Replay(w, h, span))
    decreases |h|
  {
    if h != [] {
      assert forall i :: 0 <= i < |h[1..]| ==> h[1..][i] == h[i + 1];
      if h[0].Added? {
        AdmitFacts(w, h[0].id, h[0].amount, h[0].at, span);
      }
      UnitReplay(Happen(w, h[0], span), h[1..], span);
    }
  }

  /** ZCARD of the pruned set is its total. */
  lemma UnitTotal(h: seq<Event>, now: nat, span: nat)
    requires RequestLog(h)
    ensures |Prune(Replay([], h, span), now, span)| == Total(Prune(Replay([], h, span), now, span))
  {
    UnitReplay([], h, span);
    UnitSize(Prune(Replay([], h, span), now, span));
  }

  // ---------------------------------------------------------------------------------------------
  // Requests and stamps
  // ---------------------------------------------------------------------------------------------

  /** The rule the method applies to request `i` of a log. */
  predicate IsAdmitted(h: seq<Event>, i: nat, limit: nat, span: nat)
    requires i < |h|
  {
    h[i].Added? && LogTotal(h[..i], h[i].at, span) < limit
  }

  /** All requests, admitted or refused, among the first `n` that lie within (now - span, now]. */
  function Requests(h: seq<Event>, n: nat, now: nat, span: nat): nat
    requires n <= |h|
  {
    if n == 0 then 0
    else Requests(h, n - 1, now, span) + if InWindow(h[n - 1], now, span) then 1 else 0
  }

  predicate InWindow(e: Event, now: nat, span: nat) {
    e.Added? && e.at + span > now
  }

  /** The stamps of the requests among the first `n` that lie within (now - span, now]. */
  function Stamps(h: seq<Event>, n: nat, now: nat, span: nat): set<nat>
    requires n <= |h|
  {
    set i | 0 <= i < n && InWindow(h[i], now, span) :: h[i].id
  }

  /** No two requests of the window share a stamp. */
  predicate DistinctIn(h: seq<Event>, n: nat, now: nat, span: nat)
    requires n <= |h|
  {
    forall i, j :: 0 <= i < j < n && InWindow(h[i], now, span) && InWindow(h[j], now, span) ==> h[i].id != h[j].id
  }

  /** The admitted requests among the first `n` whose time lies in the half-open [from, from + span). */
  function AdmittedIn(h: seq<Event>, n: nat, from: nat, limit: nat, span: nat): nat
    requires n <= |h|
  {
    if n == 0 then 0
    else
      AdmittedIn(h, n - 1, from, limit, span)
      + if IsAdmitted(h, n - 1, limit, span) && from <= h[n - 1].at < from + span then 1 else 0
  }

  lemma StampsNext(h: seq<Event>, n: nat, now: nat, span: nat)
    requires 0 < n <= |h|
    ensures Stamps(h, n, now, span)
            == Stamps(h, n - 1, now, span) + if InWindow(h[n - 1], now, span) then {h[n - 1].id} else {}
  {
  }

  lemma NoStamps(h: seq<Event>, now: nat, span: nat)
    ensures Stamps(h, 0, now, span) == {}
  {
  }

  lemma SharedStamp(h: seq<Event>, n: nat, now: nat, span: nat)
    requires 0 < n <= |h| && InWindow(h[n - 1], now, span)
    ensures h[n - 1].id in Stamps(h, n - 1, now, span) ==> !DistinctIn(h, n, now, span)
    ensures h[n - 1].id !in Stamps(h, n - 1, now, span) ==>
              (DistinctIn(h, n, now, span) <==> DistinctIn(h, n - 1, now, span))
  {
    if h[n - 1].id in Stamps(h, n - 1, now, span) {
      var i :| 0 <= i < n - 1 && InWindow(h[i], now, span) && h[i].id == h[n - 1].id;
    }
  }

  /** Stamps never exceed requests, and are as many exactly when no two requests share one. */
  lemma {:induction false} StampsAndRequests(h: seq<Event>, n: nat, now: nat, span: nat)
    requires n <= |h|
    ensures |Stamps(h, n, now, span)| <= Requests(h, n, now, span)
    ensures |Stamps(h, n, now, span)| == Requests(h, n, now, span) <==> DistinctIn(h, n, now, span)
  {
    hide Stamps;
    if n == 0 {
      NoStamps(h, now, span);
    } else {
      StampsAndRequests(h, n - 1, now, span);
      StampsNext(h, n, now, span);
      if InWindow(h[n - 1], now, span) {
        GrownSize(Stamps(h, n - 1, now, span), h[n - 1].id);
        SharedStamp(h, n, now, span);
      }
    }
  }

  lemma GrownSize(a: set<nat>, x: nat)
    ensures |a + {x}| == |a| + if x in a then 0 else 1
  {
    if x in a {
      assert a + {x} == a;
    }
  }

  lemma {:induction false} LaterIsLater(h: seq<Event>, last: nat, clock: nat, span: nat, i: nat)
    requires Ordered(h, last, clock, span) && i < |h| && h[i].Added?
    ensures clock <= h[i].at
    decreases |h|
  {
    if i > 0 {
      LaterIsLater(h[1..], Last(h[0], last), Tick(h[0], clock), span, i - 1);
    }
  }

  lemma {:induction false} FrontStamps(h: seq<Event>, n: nat, now: nat, span: nat)
    requires 0 < n <= |h|
    ensures Stamps(h, n, now, span)
            == (if InWindow(h[0], now, span) then {h[0].id} else {}) + Stamps(h[1..], n - 1, now, span)
  {
    StampsNext(h, n, now, span);
    if n > 1 {
      FrontStamps(h, n - 1, now, span);
      StampsNext(h[1..], n - 1, now, span);
      assert h[1..][n - 2] == h[n - 1];
    }
  }

  /** A request in the window is stamped again later exactly when the later stamp is in the window too. */
  lemma AgainInWindow(h: seq<Event>, last: nat, clock: nat, now: nat, span: nat)
    requires h != [] && RequestLog(h) && Ordered(h, last, clock, span) && InWindow(h[0], now, span)
    ensures Touched(h[1..], h[0].id, h[0].amount) <==> h[0].id in Stamps(h[1..], |h| - 1, now, span)
  {
    var rest := h[1..];
    assert forall i :: 0 <= i < |rest| ==> rest[i] == h[i + 1];
    if Touched(rest, h[0].id, h[0].amount) {
      var i :| 0 <= i < |rest| && !rest[i].Expired? && rest[i].id == h[0].id && rest[i].amount == h[0].amount;
      LaterIsLater(rest, Last(h[0], last), Tick(h[0], clock), span, i);
      assert InWindow(rest[i], now, span);
    }
    if h[0].id in Stamps(rest, |rest|, now, span) {
      var i :| 0 <= i < |rest| && InWindow(rest[i], now, span) && rest[i].id == h[0].id;
      assert Touched(rest, h[0].id, h[0].amount);
    }
  }

  /** Whatever the stamps, the count the limiter sees is the number of different stamps in the window. */
  lemma {:induction false} TotalIsStamps(h: seq<Event>, last: nat, clock: nat, now: nat, span: nat)
    requires RequestLog(h) && Ordered(h, last, clock, span)
    ensures LogTotal(h, now, span) == |Stamps(h, |h|, now, span)|
    decreases |h|
  {
    hide Stamps, Touched, RequestLog, InTime;
    if h == [] {
      NoStamps(h, now, span);
    } else {
      TailLog(h);
      TotalIsStamps(h[1..], Last(h[0], last), Tick(h[0], clock), now, span);
      FrontStamps(h, |h|, now, span);
      var rest := Stamps(h[1..], |h| - 1, now, span);
      if InWindow(h[0], now, span) {
        AgainInWindow(h, last, clock, now, span);
        assert Stamps(h, |h|, now, span) == rest + {h[0].id};
        GrownSize(rest, h[0].id);
      } else {
        assert Stamps(h, |h|, now, span) == rest;
      }
    }
  }

  lemma TailLog(h: seq<Event>)
    requires h != [] && RequestLog(h)
    ensures RequestLog(h[1..]) && (h[0].Added? ==> h[0].amount == 1)
  {
    assert forall i :: 0 <= i < |h[1..]| ==> h[1..][i] == h[i + 1];
  }

  lemma {:induction false} OrderedPrefix(h: seq<Event>, last: nat, clock: nat, span: nat, n: nat)
    requires Ordered(h, last, clock, span) && n <= |h|
    ensures Ordered(h[..n], last, clock, span)
    decreases |h|
  {
    if n > 0 {
      OrderedPrefix(h[1..], Last(h[0], last), Tick(h[0], clock), span, n - 1);
      assert h[..n][1..] == h[1..][..n - 1];
    }
  }

  // ---------------------------------------------------------------------------------------------
  // One decision
  // ---------------------------------------------------------------------------------------------

  /** For every history: a request is admitted exactly when fewer than `limit` stamps are in its window. */
  lemma AdmittedByStamps(h: seq<Event>, i: nat, limit: nat, span: nat)
    requires RequestLog(h) && Ordered(h, 0, 0, span) && i < |h| && h[i].Added?
    ensures IsAdmitted(h, i, limit, span) <==> |Stamps(h, i, h[i].at, span)| < limit
  {
    OrderedPrefix(h, 0, 0, span, i);
    TotalIsStamps(h[..i], 0, 0, h[i].at, span);
    assert Stamps(h[..i], i, h[i].at, span) == Stamps(h, i, h[i].at, span);
  }

  /** The code sees fewer than `limit` members although at least `limit` requests came in the window. */
  predicate Overlooked(h: seq<Event>, i: nat, limit: nat, span: nat)
    requires i < |h| && h[i].Added?
  {
    |Stamps(h, i, h[i].at, span)| < limit <= Requests(h, i, h[i].at, span)
  }

  /**
   * The decision is "fewer than `limit` requests, refused ones included, came within the last window"
   * if and only if shared stamps do not hide the limit; they hide nothing when no two requests of that
   * window share one.
   */
  lemma AdmitsExactly(h: seq<Event>, i: nat, limit: nat, span: nat)
    requires RequestLog(h) && Ordered(h, 0, 0, span) && i < |h| && h[i].Added?
    ensures (IsAdmitted(h, i, limit, span) <==> Requests(h, i, h[i].at, span) < limit)
            <==> !Overlooked(h, i, limit, span)
    ensures DistinctIn(h, i, h[i].at, span) ==> !Overlooked(h, i, limit, span)
    ensures !DistinctIn(h, i, h[i].at, span) ==> Overlooked(h, i, Requests(h, i, h[i].at, span), span)
  {
    AdmittedByStamps(h, i, limit, span);
    StampsAndRequests(h, i, h[i].at, span);
  }

  // ---------------------------------------------------------------------------------------------
  // The limit over every window
  // ---------------------------------------------------------------------------------------------

  /** Where the half-open window that ends with the instant `now` starts. */
  function Start(now: nat, span: nat): nat {
    if now + 1 >= span then now + 1 - span else 0
  }

  /** Request `i` gets in although `limit` requests were already admitted within its window. */
  predicate Overrun(h: seq<Event>, i: nat, limit: nat, span: nat)
    requires i < |h| && h[i].Added?
  {
    |Stamps(h, i, h[i].at, span)| < limit <= AdmittedIn(h, i, Start(h[i].at, span), limit, span)
  }

  /** At most `limit` requests are admitted in any half-open window. */
  ghost predicate KeepsLimit(h: seq<Event>, limit: nat, span: nat) {
    forall n: nat, from: nat :: n <= |h| ==> AdmittedIn(h, n, from, limit, span) <= limit
  }

  ghost predicate NoOverrun(h: seq<Event>, limit: nat, span: nat) {
    forall i: nat :: i < |h| && h[i].Added? ==> !Overrun(h, i, limit, span)
  }

  lemma {:induction false} InOrder(h: seq<Event>, last: nat, clock: nat, span: nat, i: nat, j: nat)
    requires Ordered(h, last, clock, span) && i <= j < |h| && h[i].Added? && h[j].Added?
    ensures h[i].at <= h[j].at
    decreases |h|
  {
    if i > 0 {
      InOrder(h[1..], Last(h[0], last), Tick(h[0], clock), span, i - 1, j - 1);
    } else if j > 0 {
      LaterIsLater(h[1..], Last(h[0], last), Tick(h[0], clock), span, j - 1);
    }
  }

  /** What was admitted before an instant of a window lies in the window that ends with that instant. */
  lemma {:induction false} WindowsShift(h: seq<Event>, n: nat, j: nat, from: nat, limit: nat, span: nat)
    requires Ordered(h, 0, 0, span) && n <= j < |h| && h[j].Added? && h[j].at < from + span
    ensures AdmittedIn(h, n, from, limit, span) <= AdmittedIn(h, n, Start(h[j].at, span), limit, span)
  {
    hide LogTotal;
    if n > 0 {
      WindowsShift(h, n - 1, j, from, limit, span);
      if h[n - 1].Added? {
        InOrder(h, 0, 0, span, n - 1, j);
      }
    }
  }

  lemma {:induction false} BoundWithoutOverrun(h: seq<Event>, n: nat, from: nat, limit: nat, span: nat)
    requires RequestLog(h) && Ordered(h, 0, 0, span) && NoOverrun(h, limit, span) && n <= |h|
    ensures AdmittedIn(h, n, from, limit, span) <= limit
  {
    hide Stamps, LogTotal, Ordered, RequestLog;
    if n > 0 {
      BoundWithoutOverrun(h, n - 1, from, limit, span);
      if IsAdmitted(h, n - 1, limit, span) && from <= h[n - 1].at < from + span {
        AdmittedByStamps(h, n - 1, limit, span);
        WindowsShift(h, n - 1, n - 1, from, limit, span);
      }
    }
  }

  lemma {:induction false} AdmittedAreRequests(h: seq<Event>, n: nat, from: nat, now: nat, limit: nat, span: nat)
    requires n <= |h| && now < from + span
    ensures AdmittedIn(h, n, from, limit, span) <= Requests(h, n, now, span)
  {
    if n > 0 {
      AdmittedAreRequests(h, n - 1, from, now, limit, span);
    }
  }

  /**
   * The exact condition of the limit: for every history, at most `limit` requests are admitted in any
   * half-open window if and only if no request arrives when `limit` requests are already admitted
   * within its window while all requests of that window left fewer than `limit` different stamps.
   */
  lemma LimitHoldsExactly(h: seq<Event>, limit: nat, span: nat)
    requires RequestLog(h) && Ordered(h, 0, 0, span)
    ensures KeepsLimit(h, limit, span) <==> NoOverrun(h, limit, span)
  {
    if NoOverrun(h, limit, span) {
      forall n: nat, from: nat | n <= |h| ensures AdmittedIn(h, n, from, limit, span) <= limit {
        BoundWithoutOverrun(h, n, from, limit, span);
      }
    } else {
      var i: nat :| i < |h| && h[i].Added? && Overrun(h, i, limit, span);
      var from := Start(h[i].at, span);
      AdmittedByStamps(h, i, limit, span);
      if span == 0 {
        EmptyWindow(h, i, from, limit);
      }
      assert AdmittedIn(h, i + 1, from, limit, span) == AdmittedIn(h, i, from, limit, span) + 1;
    }
  }

  lemma {:induction false} EmptyWindow(h: seq<Event>, n: nat, from: nat, limit: nat)
    requires n <= |h|
    ensures AdmittedIn(h, n, from, limit, 0) == 0
  {
    if n > 0 {
      EmptyWindow(h, n - 1, from, limit);
    }
  }

  /** No request ever shares its stamp with another one of the same window. */
  ghost predicate DistinctStamps(h: seq<Event>, span: nat) {
    forall i: nat :: i < |h| && h[i].Added? ==> DistinctIn(h, i, h[i].at, span)
  }

  /** When no two requests within one window share a stamp, the limit holds in every window. */
  lemma RateLimit(h: seq<Event>, limit: nat, span: nat)
    requires RequestLog(h) && Ordered(h, 0, 0, span) && DistinctStamps(h, span)
    ensures KeepsLimit(h, limit, span)
  {
    forall i: nat | i < |h| && h[i].Added? ensures !Overrun(h, i, limit, span) {
      StampsAndRequests(h, i, h[i].at, span);
      if span == 0 {
        EmptyWindow(h, i, Start(h[i].at, span), limit);
      } else {
        AdmittedAreRequests(h, i, Start(h[i].at, span), h[i].at, limit, span);
      }
    }
    LimitHoldsExactly(h, limit, span);
  }

  /** Requests that share a nanosecond stamp overwrite each other: here 3 pass a limit of 2. */
  lemma SharedStampsPassTheLimit()
    ensures var r := Added(7, 1, 100);
            RequestLog([r, r, r]) && Ordered([r, r, r], 0, 0, 60) && AdmittedIn([r, r, r], 3, 100, 2, 60) == 3
  {
    var r := Added(7, 1, 100);
    var h := [r, r, r];
    TailsInOrder(r);
    forall i: nat | i < 3 ensures IsAdmitted(h, i, 2, 60) {
      AdmittedByStamps(h, i, 2, 60);
      assert Stamps(h, i, 100, 60) <= {7};
      SubsetSize(Stamps(h, i, 100, 60), {7});
    }
    assert AdmittedIn(h, 1, 100, 2, 60) == 1 && AdmittedIn(h, 2, 100, 2, 60) == 2;
  }

  lemma TailsInOrder(r: Event)
    requires r == Added(7, 1, 100)
    ensures Ordered([r, r, r], 0, 0, 60)
  {
    assert [r, r, r][1..] == [r, r] && [r, r][1..] == [r] && [r][1..] == [];
    assert Ordered([r], 100, 100, 60);
    assert Ordered([r, r], 100, 100, 60);
  }

  // ---------------------------------------------------------------------------------------------
  // What holds whatever the stamps
  // ---------------------------------------------------------------------------------------------

  /** The stamps of the admitted requests among the first `n` within [from, from + span). */
  function AdmittedStamps(h: seq<Event>, n: nat, from: nat, limit: nat, span: nat): set<nat>
    requires n <= |h|
  {
    set i | 0 <= i < n && IsAdmitted(h, i, limit, span) && from <= h[i].at < from + span :: h[i].id
  }

  lemma AdmittedHaveStamps(h: seq<Event>, n: nat, from: nat, now: nat, limit: nat, span: nat)
    requires n <= |h| && now < from + span
    ensures AdmittedStamps(h, n, from, limit, span) <= Stamps(h, n, now, span)
  {
    hide LogTotal;
  }

  /**
   * The limit that holds of every history: at most `limit` different stamps are admitted in any
   * half-open window.
   */
  lemma {:induction false} StampLimit(h: seq<Event>, n: nat, from: nat, limit: nat, span: nat)
    requires RequestLog(h) && Ordered(h, 0, 0, span) && n <= |h|
    ensures |AdmittedStamps(h, n, from, limit, span)| <= limit
  {
    hide Stamps, LogTotal, Ordered, RequestLog;
    if n == 0 {
      assert AdmittedStamps(h, 0, from, limit, span) == {};
    } else {
      StampLimit(h, n - 1, from, limit, span);
      var before := AdmittedStamps(h, n - 1, from, limit, span);
      if IsAdmitted(h, n - 1, limit, span) && from <= h[n - 1].at < from + span {
        assert AdmittedStamps(h, n, from, limit, span) == before + {h[n - 1].id};
        AdmittedByStamps(h, n - 1, limit, span);
        AdmittedHaveStamps(h, n - 1, from, h[n - 1].at, limit, span);
        SubsetSize(before, Stamps(h, n - 1, h[n - 1].at, span));
      } else {
        assert AdmittedStamps(h, n, from, limit, span) == before;
      }
    }
  }

  lemma {:induction false} SubsetSize(a: set<nat>, b: set<nat>)
    requires a <= b
    ensures |a| <= |b|
  {
    if a != {} {
      var x :| x in a;
      SubsetSize(a - {x}, b - {x});
    }
  }
}
