/**
 * The sorted set behind one `velocity:<account>` key: pruned on every add, given a time to live,
 * and undone member by member. The reference is the full log of what happened, never pruned.
 */
module SlidingWindow {
  import opened Common

  datatype Entry = Entry(id: TxId, amount: nat, at: nat)

  /** ZREMRANGEBYSCORE key 0 (now - span): both ends inclusive, so only `at > now - span` stays. */
  function Prune(w: seq<Entry>, now: nat, span: nat): (r: seq<Entry>)
    ensures forall e :: e in r ==> e in w && e.at + span > now
    ensures forall e :: e in w && e.at + span > now ==> e in r
  {
    if w == [] then []
    else
      var rest := Prune(w[1..], now, span);
      if w[0].at + span > now then [w[0]] + rest else rest
  }

  /** ZREM key id:amount. */
  function Remove(w: seq<Entry>, id: TxId, amount: nat): (r: seq<Entry>)
    ensures forall e :: e in r ==> e in w && !(e.id == id && e.amount == amount)
    ensures forall e :: e in w && !(e.id == id && e.amount == amount) ==> e in r
  {
    if w == [] then []
    else
      var rest := Remove(w[1..], id, amount);
      if w[0].id == id && w[0].amount == amount then rest else [w[0]] + rest
  }

  /** ZADD key now id:amount: a member that is already there only gets the new score. */
  function Put(w: seq<Entry>, id: TxId, amount: nat, now: nat): seq<Entry> {
    Remove(w, id, amount) + [Entry(id, amount, now)]
  }

  function Total(w: seq<Entry>): nat {
    if w == [] then 0 else w[0].amount + Total(w[1..])
  }

  /** Prune, then add: the window the MULTI block reads back with ZRANGE. */
  function Admit(w: seq<Entry>, id: TxId, amount: nat, now: nat, span: nat): seq<Entry> {
    Put(Prune(w, now, span), id, amount, now)
  }

  lemma {:induction false} TotalAppend(a: seq<Entry>, b: seq<Entry>)
    ensures Total(a + b) == Total(a) + Total(b)
  {
    if a == [] {
      assert a + b == b;
    } else {
      assert (a + b)[1..] == a[1..] + b;
      TotalAppend(a[1..], b);
    }
  }

  lemma {:induction false} PruneAppend(a: seq<Entry>, b: seq<Entry>, now: nat, span: nat)
    ensures Prune(a + b, now, span) == Prune(a, now, span) + Prune(b, now, span)
  {
    if a == [] {
      assert a + b == b;
    } else {
      assert (a + b)[1..] == a[1..] + b;
      PruneAppend(a[1..], b, now, span);
    }
  }

  lemma {:induction false} PruneTwice(w: seq<Entry>, t: nat, now: nat, span: nat)
    requires t <= now
    ensures Prune(Prune(w, t, span), now, span) == Prune(w, now, span)
  {
    if w != [] {
      PruneTwice(w[1..], t, now, span);
    }
  }

  lemma {:induction false} PruneRemove(w: seq<Entry>, id: TxId, amount: nat, now: nat, span: nat)
    ensures Prune(Remove(w, id, amount), now, span) == Remove(Prune(w, now, span), id, amount)
  {
    if w != [] {
      PruneRemove(w[1..], id, amount, now, span);
    }
  }

  /** A total is never below one of its members: the current transaction always counts itself. */
  lemma {:induction false} TotalCovers(w: seq<Entry>, e: Entry)
    requires e in w
    ensures e.amount <= Total(w)
  {
    if e != w[0] {
      TotalCovers(w[1..], e);
    }
  }

  lemma AdmitFacts(w: seq<Entry>, id: TxId, amount: nat, now: nat, span: nat)
    ensures var r := Admit(w, id, amount, now, span);
            && Entry(id, amount, now) in r
            && amount <= Total(r)
            && forall e :: e in r <==>
                 e == Entry(id, amount, now)
                 || (e in w && e.at + span > now && !(e.id == id && e.amount == amount))
  {
    var r := Admit(w, id, amount, now, span);
    assert r[|r| - 1] == Entry(id, amount, now);
    TotalCovers(r, Entry(id, amount, now));
  }

  // ---------------------------------------------------------------------------------------------
  // Histories
  // ---------------------------------------------------------------------------------------------

  /** `Expired` is Redis dropping the key; it is not an event of the full log. */
  datatype Event =
    | Added(id: TxId, amount: nat, at: nat)
    | RolledBack(id: TxId, amount: nat)
    | Expired(at: nat)

  /** What the store holds after one event. */
  function Happen(w: seq<Entry>, e: Event, span: nat): seq<Entry> {
    match e
    case Added(id, amount, at) => Admit(w, id, amount, at, span)
    case RolledBack(id, amount) => Remove(w, id, amount)
    case Expired(_) => []
  }

  function Replay(w: seq<Entry>, h: seq<Event>, span: nat): seq<Entry>
    decreases |h|
  {
    if h == [] then w else Replay(Happen(w, h[0], span), h[1..], span)
  }

  /**
   * Times never go back, and a key is only dropped once `span` has passed since the last add gave
   * it a new time to live. `last` is the time of that add, `clock` the time reached so far.
   */
  predicate Ordered(h: seq<Event>, last: nat, clock: nat, span: nat)
    decreases |h|
  {
    h == [] || (InTime(h[0], last, clock, span) && Ordered(h[1..], Last(h[0], last), Tick(h[0], clock), span))
  }

  predicate InTime(e: Event, last: nat, clock: nat, span: nat) {
    match e
    case Added(_, _, at) => clock <= at
    case RolledBack(_, _) => true
    case Expired(at) => clock <= at && last + span <= at
  }

  function Last(e: Event, last: nat): nat {
    if e.Added? then e.at else last
  }

  function Tick(e: Event, clock: nat): nat {
    if e.RolledBack? then clock else e.at
  }

  /** The time the history has reached. */
  function Clock(h: seq<Event>, clock: nat): nat
    decreases |h|
  {
    if h == [] then clock else Clock(h[1..], Tick(h[0], clock))
  }

  /** Does a later event add this member again or roll it back? */
  predicate Touched(h: seq<Event>, id: TxId, amount: nat) {
    exists i :: 0 <= i < |h| && !h[i].Expired? && h[i].id == id && h[i].amount == amount
  }

  /**
   * The reference: over the whole log, the amounts of the adds that nothing later re-adds or rolls
   * back and whose time lies in the half-open window (now - span, now].
   */
  function LogTotal(h: seq<Event>, now: nat, span: nat): nat
    decreases |h|
  {
    if h == [] then 0
    else
      (if h[0].Added? && h[0].at + span > now && !Touched(h[1..], h[0].id, h[0].amount)
       then h[0].amount else 0) + LogTotal(h[1..], now, span)
  }

  // ---------------------------------------------------------------------------------------------
  // The pruned, expiring set agrees with the log
  // ---------------------------------------------------------------------------------------------

  /** The same history on a set that is never pruned and never expires. */
  function Keep(w: seq<Entry>, h: seq<Event>): seq<Entry>
    decreases |h|
  {
    if h == [] then w else Keep(KeepOne(w, h[0]), h[1..])
  }

  function KeepOne(w: seq<Entry>, e: Event): seq<Entry> {
    match e
    case Added(id, amount, at) => Put(w, id, amount, at)
    case RolledBack(id, amount) => Remove(w, id, amount)
    case Expired(_) => w
  }

  lemma {:induction false} PruneAll(w: seq<Entry>, now: nat, span: nat)
    requires forall e :: e in w ==> e.at + span <= now
    ensures Prune(w, now, span) == []
  {
    if w != [] {
      PruneAll(w[1..], now, span);
    }
  }

  lemma PrunePut(w: seq<Entry>, id: TxId, amount: nat, now: nat, span: nat)
    ensures Prune(Put(w, id, amount, now), now, span)
            == Remove(Prune(w, now, span), id, amount) + Prune([Entry(id, amount, now)], now, span)
  {
    PruneAppend(Remove(w, id, amount), [Entry(id, amount, now)], now, span);
    PruneRemove(w, id, amount, now, span);
  }

  lemma PruneAdmit(w: seq<Entry>, id: TxId, amount: nat, now: nat, span: nat)
    ensures Prune(Admit(w, id, amount, now, span), now, span) == Prune(Put(w, id, amount, now), now, span)
  {
    PrunePut(Prune(w, now, span), id, amount, now, span);
    PrunePut(w, id, amount, now, span);
    PruneTwice(w, now, now, span);
  }

  /** One event keeps the two sets equal as far as any later prune can see. */
  lemma AgreeStep(a: seq<Entry>, b: seq<Entry>, e: Event, last: nat, clock: nat, span: nat)
    requires InTime(e, last, clock, span) && last <= clock
    requires Prune(a, clock, span) == Prune(b, clock, span)
    requires forall x :: x in b ==> x.at <= last
    ensures var t := Tick(e, clock); Prune(Happen(a, e, span), t, span) == Prune(KeepOne(b, e), t, span)
    ensures forall x :: x in KeepOne(b, e) ==> x.at <= Last(e, last)
  {
    match e
    case Added(id, amount, at) =>
      PruneTwice(a, clock, at, span);
      PruneTwice(b, clock, at, span);
      PruneAdmit(a, id, amount, at, span);
      PrunePut(a, id, amount, at, span);
      PrunePut(b, id, amount, at, span);
    case RolledBack(id, amount) =>
      PruneRemove(a, id, amount, clock, span);
      PruneRemove(b, id, amount, clock, span);
    case Expired(at) =>
      PruneAll(b, at, span);
  }

  /** Pruning early and dropping the key late lose nothing the next prune would have kept. */
  lemma {:induction false} PruningIsUnobservable(
    a: seq<Entry>, b: seq<Entry>, h: seq<Event>, last: nat, clock: nat, now: nat, span: nat)
    requires Ordered(h, last, clock, span) && Clock(h, clock) <= now
    requires last <= clock && Prune(a, clock, span) == Prune(b, clock, span)
    requires forall x :: x in b ==> x.at <= last
    ensures Prune(Replay(a, h, span), now, span) == Prune(Keep(b, h), now, span)
    decreases |h|
  {
    if h == [] {
      PruneTwice(a, clock, now, span);
      PruneTwice(b, clock, now, span);
    } else {
      AgreeStep(a, b, h[0], last, clock, span);
      PruningIsUnobservable(Happen(a, h[0], span), KeepOne(b, h[0]), h[1..],
                            Last(h[0], last), Tick(h[0], clock), now, span);
    }
  }

  /** The entries of `w` that no event of `h` touches. */
  function Untouched(w: seq<Entry>, h: seq<Event>): seq<Entry> {
    if w == [] then []
    else (if Touched(h, w[0].id, w[0].amount) then [] else [w[0]]) + Untouched(w[1..], h)
  }

  lemma {:induction false} UntouchedAppend(a: seq<Entry>, b: seq<Entry>, h: seq<Event>)
    ensures Untouched(a + b, h) == Untouched(a, h) + Untouched(b, h)
  {
    if a == [] {
      assert a + b == b;
    } else {
      assert (a + b)[1..] == a[1..] + b;
      UntouchedAppend(a[1..], b, h);
    }
  }

  lemma TouchedFirst(h: seq<Event>, id: TxId, amount: nat)
    requires h != []
    ensures Touched(h, id, amount) <==>
            (!h[0].Expired? && h[0].id == id && h[0].amount == amount) || Touched(h[1..], id, amount)
  {
    if Touched(h[1..], id, amount) {
      var i :| 0 <= i < |h| - 1 && !h[1..][i].Expired? && h[1..][i].id == id && h[1..][i].amount == amount;
      assert h[i + 1] == h[1..][i];
    }
    if Touched(h, id, amount) {
      var i :| 0 <= i < |h| && !h[i].Expired? && h[i].id == id && h[i].amount == amount;
      if i > 0 {
        assert h[1..][i - 1] == h[i];
      }
    }
  }

  /** Touching by a whole log is removal by its first event, then touching by the rest. */
  lemma {:induction false} UntouchedStep(w: seq<Entry>, h: seq<Event>)
    requires h != []
    ensures Untouched(w, h) == if h[0].Expired? then Untouched(w, h[1..])
                               else Untouched(Remove(w, h[0].id, h[0].amount), h[1..])
  {
    if w != [] {
      UntouchedStep(w[1..], h);
      TouchedFirst(h, w[0].id, w[0].amount);
    }
  }

  lemma {:induction false} KeepIsTheLog(w: seq<Entry>, h: seq<Event>, now: nat, span: nat)
    ensures Total(Prune(Keep(w, h), now, span)) ==
            Total(Prune(Untouched(w, h), now, span)) + LogTotal(h, now, span)
    decreases |h|
  {
    if h == [] {
      UntouchedByNothing(w);
    } else {
      UntouchedStep(w, h);
      match h[0]
      case Added(id, amount, at) =>
        var kept, e := Remove(w, id, amount), Entry(id, amount, at);
        KeepIsTheLog(kept + [e], h[1..], now, span);
        UntouchedAppend(kept, [e], h[1..]);
        PruneAppend(Untouched(kept, h[1..]), Untouched([e], h[1..]), now, span);
        TotalAppend(Prune(Untouched(kept, h[1..]), now, span), Prune(Untouched([e], h[1..]), now, span));
      case RolledBack(id, amount) =>
        KeepIsTheLog(Remove(w, id, amount), h[1..], now, span);
      case Expired(_) =>
        KeepIsTheLog(w, h[1..], now, span);
    }
  }

  lemma {:induction false} UntouchedByNothing(w: seq<Entry>)
    ensures Untouched(w, []) == w
  {
    if w != [] {
      UntouchedByNothing(w[1..]);
    }
  }

  /**
   * Window refinement: for every history of adds, re-adds, rollbacks and expiries in time order,
   * the pruned and expiring set holds, at any later time, exactly what the full log says is live.
   */
  lemma WindowRefinesLog(h: seq<Event>, now: nat, span: nat)
    requires Ordered(h, 0, 0, span) && Clock(h, 0) <= now
    ensures Total(Prune(Replay([], h, span), now, span)) == LogTotal(h, now, span)
  {
    PruningIsUnobservable([], [], h, 0, 0, now, span);
    KeepIsTheLog([], h, now, span);
  }

  lemma {:induction false} ReplayAppend(w: seq<Entry>, h: seq<Event>, e: Event, span: nat)
    ensures Replay(w, h + [e], span) == Happen(Replay(w, h, span), e, span)
    decreases |h|
  {
    if h == [] {
      assert ([e])[1..] == [];
      assert h + [e] == [e];
    } else {
      assert (h + [e])[1..] == h[1..] + [e];
      ReplayAppend(Happen(w, h[0], span), h[1..], e, span);
    }
  }

  function LastAdd(h: seq<Event>, last: nat): nat
    decreases |h|
  {
    if h == [] then last else LastAdd(h[1..], Last(h[0], last))
  }

  lemma {:induction false} OrderedAppend(h: seq<Event>, e: Event, last: nat, clock: nat, span: nat)
    requires Ordered(h, last, clock, span) && InTime(e, LastAdd(h, last), Clock(h, clock), span)
    ensures Ordered(h + [e], last, clock, span)
    ensures Clock(h + [e], clock) == Tick(e, Clock(h, clock))
    ensures LastAdd(h + [e], last) == Last(e, LastAdd(h, last))
    decreases |h|
  {
    if h == [] {
      assert h + [e] == [e] && ([e])[1..] == [];
    } else {
      assert (h + [e])[1..] == h[1..] + [e];
      OrderedAppend(h[1..], e, Last(h[0], last), Tick(h[0], clock), span);
    }
  }

  /** One more event in time order, seen from all sides. */
  lemma EventAppend(h: seq<Event>, e: Event, span: nat)
    requires Ordered(h, 0, 0, span) && InTime(e, LastAdd(h, 0), Clock(h, 0), span)
    ensures Replay([], h + [e], span) == Happen(Replay([], h, span), e, span)
    ensures Ordered(h + [e], 0, 0, span)
    ensures Clock(h + [e], 0) == Tick(e, Clock(h, 0))
    ensures LastAdd(h + [e], 0) == Last(e, LastAdd(h, 0))
  {
    ReplayAppend([], h, e, span);
    OrderedAppend(h, e, 0, 0, span);
  }

  /** The number `check_and_update_velocity` returns, for every history before the call. */
  lemma ReturnedTotalIsLogTotal(h: seq<Event>, id: TxId, amount: nat, now: nat, span: nat)
    requires Ordered(h, 0, 0, span) && Clock(h, 0) <= now && 0 < span
    ensures Total(Admit(Replay([], h, span), id, amount, now, span))
            == LogTotal(h + [Added(id, amount, now)], now, span)
  {
    var e := Added(id, amount, now);
    var w := Replay([], h, span);
    ReplayAppend([], h, e, span);
    OrderedAppend(h, e, 0, 0, span);
    WindowRefinesLog(h + [e], now, span);
    PruneFresh(w, id, amount, now, span);
  }

  lemma PruneFresh(w: seq<Entry>, id: TxId, amount: nat, now: nat, span: nat)
    requires 0 < span
    ensures Prune(Admit(w, id, amount, now, span), now, span) == Admit(w, id, amount, now, span)
  {
    PrunePut(Prune(w, now, span), id, amount, now, span);
    PruneTwice(w, now, now, span);
    assert Prune([Entry(id, amount, now)], now, span) == [Entry(id, amount, now)];
  }

  lemma {:induction false} ExpiryLeavesTotal(h: seq<Event>, at: nat, now: nat, span: nat)
    ensures LogTotal(h + [Expired(at)], now, span) == LogTotal(h, now, span)
    decreases |h|
  {
    var g := h + [Expired(at)];
    if h == [] {
      assert g == [Expired(at)] && g[1..] == [];
    } else {
      assert g[1..] == h[1..] + [Expired(at)];
      ExpiryLeavesTotal(h[1..], at, now, span);
      if h[0].Added? {
        ExpiryTouchesNothing(h[1..], at, h[0].id, h[0].amount);
      }
    }
  }

  lemma ExpiryTouchesNothing(h: seq<Event>, at: nat, id: TxId, amount: nat)
    ensures Touched(h + [Expired(at)], id, amount) == Touched(h, id, amount)
  {
    var g := h + [Expired(at)];
    if Touched(h, id, amount) {
      var i :| 0 <= i < |h| && !h[i].Expired? && h[i].id == id && h[i].amount == amount;
      assert g[i] == h[i];
    }
  }

  /** An expiry is no event of the reference log. */
  lemma ExpiryLeavesTheLog(h: seq<Event>, at: nat, span: nat)
    ensures forall t: nat :: LogTotal(h + [Expired(at)], t, span) == LogTotal(h, t, span)
  {
    forall t: nat ensures LogTotal(h + [Expired(at)], t, span) == LogTotal(h, t, span) {
      ExpiryLeavesTotal(h, at, t, span);
    }
  }

  // ---------------------------------------------------------------------------------------------
  // The log total, event by event
  // ---------------------------------------------------------------------------------------------

  /** The member counts at `now`: it was added within the window and not touched since. */
  predicate Live(h: seq<Event>, id: TxId, amount: nat, now: nat, span: nat) {
    exists i :: 0 <= i < |h| && LiveAt(h, i, id, amount, now, span)
  }

  predicate LiveAt(h: seq<Event>, i: nat, id: TxId, amount: nat, now: nat, span: nat)
    requires i < |h|
  {
    && h[i].Added? && h[i].id == id && h[i].amount == amount && h[i].at + span > now
    && forall j :: i < j < |h| && !h[j].Expired? ==> !(h[j].id == id && h[j].amount == amount)
  }

  lemma LiveFirst(h: seq<Event>, id: TxId, amount: nat, now: nat, span: nat)
    requires h != []
    ensures LiveAt(h, 0, id, amount, now, span) <==>
            h[0] == Added(id, amount, if h[0].Added? then h[0].at else 0) && h[0].at + span > now
            && !Touched(h[1..], id, amount)
    ensures Live(h, id, amount, now, span) <==>
            LiveAt(h, 0, id, amount, now, span) || Live(h[1..], id, amount, now, span)
    ensures Live(h[1..], id, amount, now, span) ==> Touched(h[1..], id, amount)
  {
    var rest := h[1..];
    assert forall i :: 0 <= i < |rest| ==> rest[i] == h[i + 1];
    if Live(h, id, amount, now, span) {
      var i :| 0 <= i < |h| && LiveAt(h, i, id, amount, now, span);
      if i > 0 {
        assert LiveAt(rest, i - 1, id, amount, now, span);
      }
    }
    if Live(rest, id, amount, now, span) {
      var i :| 0 <= i < |rest| && LiveAt(rest, i, id, amount, now, span);
      assert LiveAt(h, i + 1, id, amount, now, span);
      assert !rest[i].Expired?;
    }
    if !Touched(rest, id, amount) && h[0].Added? && h[0].id == id && h[0].amount == amount && h[0].at + span > now {
      forall j | 0 < j < |h| && !h[j].Expired? ensures !(h[j].id == id && h[j].amount == amount) {
        assert h[j] == rest[j - 1];
      }
    }
  }

  lemma TouchedLast(h: seq<Event>, e: Event, id: TxId, amount: nat)
    requires !e.Expired?
    ensures Touched(h + [e], id, amount) <==> Touched(h, id, amount) || (e.id == id && e.amount == amount)
  {
    var g := h + [e];
    if Touched(h, id, amount) {
      var i :| 0 <= i < |h| && !h[i].Expired? && h[i].id == id && h[i].amount == amount;
      assert g[i] == h[i];
    }
    if e.id == id && e.amount == amount {
      assert g[|h|] == e;
    }
  }

  /** What any event but an expiry takes away: the older copy of the same member, if it still counts. */
  lemma {:induction false} TotalWithLast(h: seq<Event>, e: Event, now: nat, span: nat)
    requires !e.Expired?
    ensures LogTotal(h + [e], now, span) + (if Live(h, e.id, e.amount, now, span) then e.amount else 0)
            == LogTotal(h, now, span) + (if e.Added? && e.at + span > now then e.amount else 0)
    decreases |h|
  {
    var g := h + [e];
    if h == [] {
      assert g[0] == e && g[1..] == [];
    } else {
      assert g[0] == h[0] && g[1..] == h[1..] + [e];
      TotalWithLast(h[1..], e, now, span);
      LiveFirst(h, e.id, e.amount, now, span);
      if h[0].Added? {
        TouchedLast(h[1..], e, h[0].id, h[0].amount);
      }
    }
  }

  /** A transaction counts once: adding it again within the window raises nothing. */
  lemma AddCountsOnce(h: seq<Event>, id: TxId, amount: nat, now: nat, span: nat)
    requires 0 < span
    ensures LogTotal([], now, span) == 0
    ensures LogTotal(h + [Added(id, amount, now)], now, span)
            == LogTotal(h, now, span) + if Live(h, id, amount, now, span) then 0 else amount
  {
    TotalWithLast(h, Added(id, amount, now), now, span);
  }

  /** A rollback gives back exactly the amount, if it still counts. */
  lemma RollbackGivesBack(h: seq<Event>, id: TxId, amount: nat, now: nat, span: nat)
    ensures LogTotal(h + [RolledBack(id, amount)], now, span)
            == LogTotal(h, now, span) - if Live(h, id, amount, now, span) then amount else 0
  {
    TotalWithLast(h, RolledBack(id, amount), now, span);
  }
}
