/**
 * The whole pipeline as a transition system: gateway tables and relay, raw topic, fraud processor and
 * its windows, scored topic, ledger and its relay, settled topic, status update and velocity rollback.
 * Sends, database commits and offset commits are separate steps, and any component may stop and
 * restart between them. A `create_ledger` call is one step, as its concurrent workers are serializable.
 */
module Pipeline {
  import opened Common
  import opened Kafka
  import opened Ledger
  import opened Settlement
  import FraudScorer
  import OutboxRelay
  import SlidingWindow

  datatype Group = Scorer | Poster | Updater | Refunder

  /** One scoring: the transaction, its time, and the window right after the update. */
  datatype Scoring = Scoring(raw: RawTx, at: nat, win: seq<SlidingWindow.Entry>)

  datatype State = State(
    // gateway database; `relaying` are rows sent but not yet committed as PROCESSED
    rows: map<TxId, TxRow>,
    outbox: seq<OutboxRow<RawTx>>,
    relaying: set<nat>,
    // fraud processor; `scorings` records what happened and is read by no step
    raw: Topic<RawTx>,
    scorer: seq<Consumer>,
    span: nat,
    windows: map<AccountId, seq<SlidingWindow.Entry>>,
    deadlines: map<AccountId, nat>,
    clock: nat,
    scorings: seq<Scoring>,
    // ledger; `settling` are outbox rows sent but not yet committed as PROCESSED
    scored: Topic<ScoredTx>,
    poster: seq<Consumer>,
    ledger: Ledger,
    settling: set<nat>,
    // settled topic with its two groups
    settled: Topic<Settled>,
    updater: seq<Consumer>,
    refunder: seq<Consumer>)

  datatype Step =
    | Submit(tx: RawTx)
    | Publish(i: nat, p: nat)
    | Confirm(done: set<nat>)
    | Drop(done: set<nat>)
    | FetchNext(g: Group, p: nat)
    | AckCurrent(g: Group, p: nat)
    | RestartGroup(g: Group, p: nat)
    | Score(p: nat, now: nat)
    | SendScored(p: nat, q: nat)
    | Post(p: nat)
    | PublishSettled(i: nat, p: nat)
    | ConfirmSettled(done: set<nat>)
    | DropSettled(done: set<nat>)
    | Update(p: nat)
    | Refund(p: nat)
    | ExpireKey(account: AccountId, now: nat)

  /** Numbers of partitions, the window length, and the ledger's accounts. */
  datatype Config = Config(rawParts: nat, scoredParts: nat, settledParts: nat, span: nat, start: map<AccountId, int>)

  function Init(c: Config): State {
    State(
      map[], [], {},
      seq(c.rawParts, _ => []), seq(c.rawParts, _ => FreshConsumer), c.span, map[], map[], 0, [],
      seq(c.scoredParts, _ => []), seq(c.scoredParts, _ => FreshConsumer), Fresh(c.start), {},
      seq(c.settledParts, _ => []), seq(c.settledParts, _ => FreshConsumer), seq(c.settledParts, _ => FreshConsumer))
  }

  function Consumers(s: State, g: Group): seq<Consumer> {
    match g
    case Scorer => s.scorer
    case Poster => s.poster
    case Updater => s.updater
    case Refunder => s.refunder
  }

  function WithConsumers(s: State, g: Group, cs: seq<Consumer>): State {
    match g
    case Scorer => s.(scorer := cs)
    case Poster => s.(poster := cs)
    case Updater => s.(updater := cs)
    case Refunder => s.(refunder := cs)
  }

  predicate Fetchable(s: State, g: Group, p: nat) {
    match g
    case Scorer => CanFetch(s.raw, s.scorer, p)
    case Poster => CanFetch(s.scored, s.poster, p)
    case Updater => CanFetch(s.settled, s.updater, p)
    case Refunder => CanFetch(s.settled, s.refunder, p)
  }

  function Window(s: State, a: AccountId): seq<SlidingWindow.Entry> {
    if a in s.windows then s.windows[a] else []
  }

  predicate Enabled(s: State, step: Step) {
    match step
    case Submit(tx) =>
      tx.id !in s.rows && tx.amount <= INT_MAX && forall x :: x in s.rows ==> s.rows[x].raw.key != tx.key
    case Publish(i, p) => i < |s.outbox| && s.outbox[i].status.Unsent? && i !in s.relaying && p < |s.raw|
    case Confirm(done) => done <= s.relaying
    case Drop(done) => done <= s.relaying
    case FetchNext(g, p) => Fetchable(s, g, p)
    case AckCurrent(g, p) => p < |Consumers(s, g)| && Consumers(s, g)[p].work.Handled?
    case RestartGroup(g, p) => p < |Consumers(s, g)|
    case Score(p, now) => Working(s.raw, s.scorer, p) && s.scorer[p].work.Fetched? && s.clock <= now
    case SendScored(p, q) => Working(s.raw, s.scorer, p) && s.scorer[p].work.Ready? && q < |s.scored|
    case Post(p) => Working(s.scored, s.poster, p) && s.poster[p].work.Fetched?
    case PublishSettled(i, p) =>
      i < |s.ledger.outbox| && s.ledger.outbox[i].status.Unsent? && i !in s.settling && p < |s.settled|
    case ConfirmSettled(done) => done <= s.settling
    case DropSettled(done) => done <= s.settling
    case Update(p) => Working(s.settled, s.updater, p) && s.updater[p].work.Fetched?
    case Refund(p) => Working(s.settled, s.refunder, p) && s.refunder[p].work.Fetched?
    case ExpireKey(a, now) => s.clock <= now && a in s.windows && a in s.deadlines && s.deadlines[a] <= now
  }

  function Next(s: State, step: Step): State
    requires Enabled(s, step)
  {
    match step
    case Submit(tx) =>
      s.(rows := s.rows[tx.id := TxRow(tx, Pending, None)], outbox := s.outbox + [OutboxRow(tx, Unsent)])
    case Publish(i, p) => s.(raw := Append(s.raw, p, s.outbox[i].event), relaying := s.relaying + {i})
    case Confirm(done) => s.(outbox := OutboxRelay.MarkProcessed(s.outbox, done), relaying := s.relaying - done)
    case Drop(done) => s.(relaying := s.relaying - done)
    case FetchNext(g, p) => WithConsumers(s, g, Fetch(Consumers(s, g), p))
    case AckCurrent(g, p) => WithConsumers(s, g, Ack(Consumers(s, g), p))
    case RestartGroup(g, p) => WithConsumers(s, g, Restart(Consumers(s, g), p))
    case Score(p, now) =>
      // above 1,000,000 cents the scored message is invalid: the raw message is acknowledged without one
      var tx := Current(s.raw, s.scorer, p);
      var win := SlidingWindow.Admit(Window(s, tx.sender), tx.id, tx.amount, now, s.span);
      var result := FraudScorer.Score(tx, SlidingWindow.Total(win));
      s.(windows := s.windows[tx.sender := win],
         deadlines := s.deadlines[tx.sender := now + s.span],
         clock := now,
         scorings := s.scorings + [Scoring(tx, now, win)],
         scorer := SetWork(s.scorer, p, if result.Evaluated? then Ready(result.tx) else Handled))
    case SendScored(p, q) =>
      s.(scored := Append(s.scored, q, s.scorer[p].work.result), scorer := SetWork(s.scorer, p, Handled))
    case Post(p) =>
      var tx := Current(s.scored, s.poster, p);
      if Attempt(s.ledger, tx) == WidthFault then s.(poster := Restart(s.poster, p))
      else s.(ledger := Apply(s.ledger, tx), poster := SetWork(s.poster, p, Handled))
    case PublishSettled(i, p) =>
      s.(settled := Append(s.settled, p, s.ledger.outbox[i].event), settling := s.settling + {i})
    case ConfirmSettled(done) =>
      s.(ledger := s.ledger.(outbox := OutboxRelay.MarkProcessed(s.ledger.outbox, done)), settling := s.settling - done)
    case DropSettled(done) => s.(settling := s.settling - done)
    case Update(p) =>
      s.(rows := Overwrite(s.rows, Current(s.settled, s.updater, p)), updater := SetWork(s.updater, p, Handled))
    case Refund(p) =>
      var e := Current(s.settled, s.refunder, p);
      var handled := s.(refunder := SetWork(s.refunder, p, Handled));
      if e.Refunds() && e.sender in s.windows
      then handled.(windows := s.windows[e.sender := SlidingWindow.Remove(s.windows[e.sender], e.tx, e.amount)])
      else handled
    case ExpireKey(a, now) => s.(windows := s.windows - {a}, clock := now)
  }

  ghost predicate Runs(s: State, steps: seq<Step>, t: State)
    decreases |steps|
  {
    if steps == [] then s == t
    else Enabled(s, steps[0]) && Runs(Next(s, steps[0]), steps[1..], t)
  }

  ghost predicate Reachable(c: Config, s: State) {
    exists steps :: Runs(Init(c), steps, s)
  }

  lemma {:induction false} RunsAppend(s: State, steps: seq<Step>, t: State, step: Step)
    requires Runs(s, steps, t) && Enabled(t, step)
    ensures Runs(s, steps + [step], Next(t, step))
    decreases |steps|
  {
    if steps == [] {
      assert steps + [step] == [step] && ([step])[1..] == [];
    } else {
      assert (steps + [step])[1..] == steps[1..] + [step];
      RunsAppend(Next(s, steps[0]), steps[1..], t, step);
    }
  }

  lemma ReachNext(c: Config, s: State, step: Step)
    requires Reachable(c, s) && Enabled(s, step)
    ensures Reachable(c, Next(s, step))
  {
    var steps :| Runs(Init(c), steps, s);
    RunsAppend(Init(c), steps, s, step);
  }
}
