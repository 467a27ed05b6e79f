/**
 * The scenario service as a state machine over one database and one broker.
 *
 * A run is a sequence of actions: clock ticks, the statements of in-flight
 * onboarding calls, account consuming the broker, and the effects of W relay
 * workers. Every action is atomic; between any two of them anything may
 * happen, including a rollback, a lost reply or a crash.
 */
module OutboxModel {
  import opened Wrappers

  type EventId = nat     // a UUID; freshness is never assumed
  type PlayerId = string
  type Time = nat        // microseconds, the resolution of TIMESTAMPTZ
  type CallId = nat

  /**
   * `selectable` stands for SelectableFactions, which another repository owns.
   * `workers` is the number of relay processes sharing the database.
   */
  datatype Config = Config(
    batchSize: nat,
    threshold: nat,
    visibilityNanos: nat,
    workers: nat,
    selectable: seq<string>)

  /** What outbox.New demands; it does not demand a whole millisecond. */
  predicate ValidConfig(c: Config) {
    c.batchSize > 0 && c.threshold > 0 && c.visibilityNanos > 0
  }

  /** The lease the SQL interval really grants: whole milliseconds only. */
  function Lease(c: Config): Time {
    (c.visibilityNanos / 1_000_000) * 1000
  }

  // ---------------------------------------------------------------- events

  datatype Payload =
    | NameSet(eventId: EventId, timestamp: Time, playerId: PlayerId, name: string)
    | FactionSet(eventId: EventId, timestamp: Time, playerId: PlayerId, initialFactionId: string)
    | Onboarded(eventId: EventId, timestamp: Time, playerId: PlayerId, initialFactionId: string)

  function EventTypeOf(p: Payload): string {
    match p
    case NameSet(_, _, _, _) => "onboarding_name_set"
    case FactionSet(_, _, _, _) => "onboarding_faction_set"
    case Onboarded(_, _, _, _) => "player_onboarded"
  }

  datatype OutboxEvent = OutboxEvent(eventId: EventId, eventType: string, payload: Payload)

  datatype Message = Message(eventType: string, payload: Payload)

  datatype ServiceError =
    | EmptyField
    | InvalidName
    | InvalidFaction
    | PlayerNotFound
    | FactionNotSelected
    | AlreadyOnboarded
    | Other

  function EventFor(p: Payload): OutboxEvent {
    OutboxEvent(p.eventId, EventTypeOf(p), p)
  }

  function BuildNameSet(id: EventId, ts: Time, player: PlayerId, name: string): Result<OutboxEvent, ServiceError> {
    if player == "" || name == "" then Err(EmptyField) else Ok(EventFor(NameSet(id, ts, player, name)))
  }

  function BuildFactionSet(id: EventId, ts: Time, player: PlayerId, faction: string): Result<OutboxEvent, ServiceError> {
    if player == "" || faction == "" then Err(EmptyField) else Ok(EventFor(FactionSet(id, ts, player, faction)))
  }

  function BuildOnboarded(id: EventId, ts: Time, player: PlayerId, faction: string): Result<OutboxEvent, ServiceError> {
    if player == "" || faction == "" then Err(EmptyField) else Ok(EventFor(Onboarded(id, ts, player, faction)))
  }

  // ----------------------------------------------------------------- tables

  datatype Row = Row(
    eventType: string,
    payload: Payload,
    createdAt: Time,
    publishedAt: Option<Time>,
    failureCount: nat,
    lastError: Option<string>,
    lastAttemptedAt: Option<Time>)

  type Table = map<EventId, Row>

  function NewRow(ev: OutboxEvent, createdAt: Time): Row {
    Row(ev.eventType, ev.payload, createdAt, None, 0, None, None)
  }

  function MessageOf(row: Row): Message {
    Message(row.eventType, row.payload)
  }

  /** The WHERE clause of the claim. */
  predicate Eligible(c: Config, row: Row, now: Time) {
    && row.publishedAt.None?
    && row.failureCount < c.threshold
    && (row.lastAttemptedAt.None? || row.lastAttemptedAt.value + Lease(c) < now)
  }

  /** Still to be delivered: neither published nor given up. */
  predicate Live(c: Config, row: Row) {
    row.publishedAt.None? && row.failureCount < c.threshold
  }

  function Stamp(rows: Table, ids: set<EventId>, now: Time): Table {
    map id | id in rows :: if id in ids then rows[id].(lastAttemptedAt := Some(now)) else rows[id]
  }

  function MarkRow(rows: Table, id: EventId, now: Time): Table {
    if id in rows
    then rows[id := rows[id].(publishedAt := Some(now), lastAttemptedAt := Some(now), lastError := None)]
    else rows
  }

  function RecordRow(rows: Table, id: EventId, now: Time, err: string): Table {
    if id in rows
    then rows[id := rows[id].(failureCount := rows[id].failureCount + 1,
                              lastAttemptedAt := Some(now), lastError := Some(err))]
    else rows
  }

  function AddRows(rows: Table, events: seq<OutboxEvent>, createdAt: Time): Table
    decreases |events|
  {
    if events == [] then rows
    else AddRows(rows[events[0].eventId := NewRow(events[0], createdAt)], events[1..], createdAt)
  }

  // ---------------------------------------------------------------- workers

  datatype Claimed = Claimed(eventId: EventId, eventType: string, payload: Payload, failureCount: nat)

  datatype Phase = ToPublish | ToMark | ToLog(err: string) | ToRecord(err: string)

  /**
   * Claiming: the claim statement holds its row locks and has not committed.
   * Working: batch[0] is being processed, the rest waits; `at` is the stamp.
   */
  datatype Worker =
    | Idle
    | Claiming(now: Time, ids: set<EventId>)
    | Working(at: Time, batch: seq<Claimed>, phase: Phase)

  function Held(x: Worker): set<EventId> {
    match x
    case Idle => {}
    case Claiming(_, ids) => ids
    case Working(_, batch, _) => set k | 0 <= k < |batch| :: batch[k].eventId
  }

  function StartBatch(at: Time, batch: seq<Claimed>): Worker {
    if batch == [] then Idle else Working(at, batch, ToPublish)
  }

  function ReadClaimed(rows: Table, order: seq<EventId>): (r: seq<Claimed>)
    requires forall id | id in order :: id in rows
  {
    seq(|order|, k requires 0 <= k < |order| =>
      var row := rows[order[k]];
      Claimed(order[k], row.eventType, row.payload, row.failureCount))
  }

  datatype ClaimRecord = ClaimRecord(eventId: EventId, at: Time)

  datatype LogRecord =
    | Stuck(eventId: EventId, attempts: nat)
    | Warned(eventId: EventId, attempts: nat)
    | MarkFailedLog(eventId: EventId)
    | RecordFailedLog(eventId: EventId)

  function Records(order: seq<EventId>, now: Time): seq<ClaimRecord> {
    seq(|order|, k requires 0 <= k < |order| => ClaimRecord(order[k], now))
  }

  // ------------------------------------------------------------------ calls

  /**
   * One service call from the moment its event is built. `key` is the
   * player_onboarding row that MarkComplete inserts, None for PublishEvents.
   * The first `written` events are staged in the open transaction.
   */
  datatype Call = Call(
    key: Option<PlayerId>,
    events: seq<OutboxEvent>,
    begun: Option<Time>,
    keyStaged: bool,
    written: nat)

  predicate Stages(call: Call, id: EventId) {
    exists k :: 0 <= k < call.written <= |call.events| && call.events[k].eventId == id
  }

  datatype State = State(
    clock: Time,
    rows: Table,
    onboarded: set<PlayerId>,
    calls: map<CallId, Call>,
    workers: seq<Worker>,
    account: map<PlayerId, string>,
    broker: seq<Message>,
    claims: seq<ClaimRecord>,
    logs: seq<LogRecord>)

  function Init(c: Config): State {
    State(0, map[], {}, map[], seq(c.workers, _ => Idle), map[], [], [], [])
  }

  // ---------------------------------------------------------------- actions

  datatype CallOp =
    | StartUpdateName(player: PlayerId, name: string, eventId: EventId, timestamp: Time)
    | StartSelectFaction(player: PlayerId, faction: string, eventId: EventId, timestamp: Time)
    | StartComplete(player: PlayerId, eventId: EventId, timestamp: Time)
    | BeginTx
    | InsertPlayer
    | WriteEvent
    | Commit
    | Rollback

  /**
   * The suffix Lost means the store applied the statement but the caller saw
   * an error; Failed means it did not apply it.
   */
  datatype WorkerOp =
    | ClaimLock(ids: set<EventId>)
    | ClaimCommit(order: seq<EventId>)
    | ClaimLost(order: seq<EventId>)
    | ClaimRollback
    | PublishOk
    | PublishRejected(err: string)
    | PublishUnknown(err: string)
    | MarkOk
    | MarkLost
    | MarkFailed
    | LogOutcome
    | RecordOk
    | RecordLost
    | RecordFailed
    | Crash

  datatype Action =
    | Tick(d: Time)
    | AccountConsumes(index: nat)
    | OfCall(call: CallId, cop: CallOp)
    | OfWorker(worker: nat, wop: WorkerOp)

  // ------------------------------------------------------------- call steps

  function StartedCall(c: Config, s: State, op: CallOp): Result<Call, ServiceError>
    requires op.StartUpdateName? || op.StartSelectFaction? || op.StartComplete?
  {
    match op
    case StartUpdateName(p, name, id, ts) =>
      (match BuildNameSet(id, ts, p, name)
       case Err(e) => Err(e)
       case Ok(ev) => Ok(Call(None, [ev], None, false, 0)))
    case StartSelectFaction(p, f, id, ts) =>
      if f !in c.selectable then Err(InvalidFaction) else
      (match BuildFactionSet(id, ts, p, f)
       case Err(e) => Err(e)
       case Ok(ev) => Ok(Call(None, [ev], None, false, 0)))
    case StartComplete(p, id, ts) =>
      if p !in s.account || s.account[p] == "" then Err(FactionNotSelected) else
      (match BuildOnboarded(id, ts, p, s.account[p])
       case Err(e) => Err(e)
       case Ok(ev) => Ok(Call(Some(p), [ev], None, false, 0)))
  }

  predicate KeyLocked(s: State, k: CallId, p: PlayerId) {
    exists k' :: k' in s.calls && k' != k && s.calls[k'].keyStaged && s.calls[k'].key == Some(p)
  }

  predicate IdLocked(s: State, k: CallId, id: EventId) {
    exists k' :: k' in s.calls && k' != k && Stages(s.calls[k'], id)
  }

  predicate CallEnabled(c: Config, s: State, k: CallId, op: CallOp) {
    match op
    case StartUpdateName(_, _, _, _) => k !in s.calls && StartedCall(c, s, op).Ok?
    case StartSelectFaction(_, _, _, _) => k !in s.calls && StartedCall(c, s, op).Ok?
    case StartComplete(_, _, _) => k !in s.calls && StartedCall(c, s, op).Ok?
    case BeginTx => k in s.calls && s.calls[k].begun.None?
    case InsertPlayer =>
      && k in s.calls && s.calls[k].begun.Some? && s.calls[k].key.Some? && !s.calls[k].keyStaged
      && !KeyLocked(s, k, s.calls[k].key.value)
    case WriteEvent =>
      && k in s.calls && s.calls[k].begun.Some? && (s.calls[k].key.Some? ==> s.calls[k].keyStaged)
      && s.calls[k].written < |s.calls[k].events|
      && !IdLocked(s, k, s.calls[k].events[s.calls[k].written].eventId)
    case Commit =>
      && k in s.calls && s.calls[k].begun.Some? && (s.calls[k].key.Some? ==> s.calls[k].keyStaged)
      && s.calls[k].written == |s.calls[k].events|
    case Rollback => k in s.calls
  }

  function KeySet(key: Option<PlayerId>): set<PlayerId> {
    if key.Some? then {key.value} else {}
  }

  function CallStep(c: Config, s: State, k: CallId, op: CallOp): State
    requires CallEnabled(c, s, k, op)
  {
    match op
    case StartUpdateName(_, _, _, _) => s.(calls := s.calls[k := StartedCall(c, s, op).value])
    case StartSelectFaction(_, _, _, _) => s.(calls := s.calls[k := StartedCall(c, s, op).value])
    case StartComplete(_, _, _) => s.(calls := s.calls[k := StartedCall(c, s, op).value])
    case BeginTx => s.(calls := s.calls[k := s.calls[k].(begun := Some(s.clock))])
    case InsertPlayer =>
      // A committed key is a unique violation: the transaction rolls back.
      if s.calls[k].key.value in s.onboarded then s.(calls := Remove(s.calls, k))
      else s.(calls := s.calls[k := s.calls[k].(keyStaged := true)])
    case WriteEvent =>
      var id := s.calls[k].events[s.calls[k].written].eventId;
      if id in s.rows || Stages(s.calls[k], id) then s.(calls := Remove(s.calls, k))
      else s.(calls := s.calls[k := s.calls[k].(written := s.calls[k].written + 1)])
    case Commit =>
      s.(rows := AddRows(s.rows, s.calls[k].events, s.calls[k].begun.value),
         onboarded := s.onboarded + KeySet(s.calls[k].key),
         calls := Remove(s.calls, k))
    case Rollback => s.(calls := Remove(s.calls, k))
  }

  // ----------------------------------------------------------- worker steps

  predicate Locked(s: State, id: EventId) {
    exists v :: 0 <= v < |s.workers| && s.workers[v].Claiming? && id in s.workers[v].ids
  }

  /** The rows a claim statement can see: eligible now and not skipped as locked. */
  function Available(c: Config, s: State): set<EventId> {
    set id | id in s.rows && Eligible(c, s.rows[id], s.clock) && !Locked(s, id)
  }

  /** ORDER BY created_at LIMIT batchSize: any choice among equal timestamps. */
  predicate OldestFirst(c: Config, rows: Table, available: set<EventId>, ids: set<EventId>) {
    && ids <= available <= rows.Keys
    && |ids| <= c.batchSize
    && (|ids| < c.batchSize ==> ids == available)
    && (forall i, j | i in ids && j in available - ids :: rows[i].createdAt <= rows[j].createdAt)
  }

  /** RETURNING promises no order: any listing of the claimed rows. */
  predicate Listing(order: seq<EventId>, ids: set<EventId>) {
    && (forall id | id in order :: id in ids)
    && (forall id | id in ids :: id in order)
    && (forall i, j | 0 <= i < j < |order| :: order[i] != order[j])
  }

  predicate WorkerEnabled(c: Config, s: State, w: nat, op: WorkerOp) {
    && w < |s.workers|
    && var x := s.workers[w];
       match op
       case ClaimLock(ids) => x.Idle? && OldestFirst(c, s.rows, Available(c, s), ids)
       case ClaimCommit(order) => x.Claiming? && Listing(order, x.ids) && x.ids <= s.rows.Keys
       case ClaimLost(order) => x.Claiming? && Listing(order, x.ids) && x.ids <= s.rows.Keys
       case ClaimRollback => x.Claiming?
       case PublishOk => x.Working? && x.batch != [] && x.phase.ToPublish?
       case PublishRejected(_) => x.Working? && x.batch != [] && x.phase.ToPublish?
       case PublishUnknown(_) => x.Working? && x.batch != [] && x.phase.ToPublish?
       case MarkOk => x.Working? && x.batch != [] && x.phase.ToMark? && !Locked(s, x.batch[0].eventId)
       case MarkLost => x.Working? && x.batch != [] && x.phase.ToMark? && !Locked(s, x.batch[0].eventId)
       case MarkFailed => x.Working? && x.batch != [] && x.phase.ToMark?
       case LogOutcome => x.Working? && x.batch != [] && x.phase.ToLog?
       case RecordOk => x.Working? && x.batch != [] && x.phase.ToRecord? && !Locked(s, x.batch[0].eventId)
       case RecordLost => x.Working? && x.batch != [] && x.phase.ToRecord? && !Locked(s, x.batch[0].eventId)
       case RecordFailed => x.Working? && x.batch != [] && x.phase.ToRecord?
       case Crash => x.Working?
  }

  function WorkerStep(c: Config, s: State, w: nat, op: WorkerOp): State
    requires WorkerEnabled(c, s, w, op)
  {
    var x := s.workers[w];
    match op
    case ClaimLock(ids) => s.(workers := s.workers[w := Claiming(s.clock, ids)])
    case ClaimCommit(order) =>
      var rows := Stamp(s.rows, x.ids, x.now);
      s.(rows := rows, claims := s.claims + Records(order, x.now),
         workers := s.workers[w := StartBatch(x.now, ReadClaimed(rows, order))])
    case ClaimLost(order) =>
      s.(rows := Stamp(s.rows, x.ids, x.now), claims := s.claims + Records(order, x.now),
         workers := s.workers[w := Idle])
    case ClaimRollback => s.(workers := s.workers[w := Idle])
    case PublishOk =>
      s.(broker := s.broker + [Message(x.batch[0].eventType, x.batch[0].payload)],
         workers := s.workers[w := x.(phase := ToMark)])
    case PublishRejected(err) => s.(workers := s.workers[w := x.(phase := ToLog(err))])
    case PublishUnknown(err) =>
      s.(broker := s.broker + [Message(x.batch[0].eventType, x.batch[0].payload)],
         workers := s.workers[w := x.(phase := ToLog(err))])
    case MarkOk =>
      s.(rows := MarkRow(s.rows, x.batch[0].eventId, s.clock),
         workers := s.workers[w := StartBatch(x.at, x.batch[1..])])
    case MarkLost =>
      s.(rows := MarkRow(s.rows, x.batch[0].eventId, s.clock),
         logs := s.logs + [MarkFailedLog(x.batch[0].eventId)],
         workers := s.workers[w := StartBatch(x.at, x.batch[1..])])
    case MarkFailed =>
      s.(logs := s.logs + [MarkFailedLog(x.batch[0].eventId)],
         workers := s.workers[w := StartBatch(x.at, x.batch[1..])])
    case LogOutcome =>
      var attempts := x.batch[0].failureCount + 1;
      var entry := if attempts >= c.threshold then Stuck(x.batch[0].eventId, attempts)
                   else Warned(x.batch[0].eventId, attempts);
      s.(logs := s.logs + [entry], workers := s.workers[w := x.(phase := ToRecord(x.phase.err))])
    case RecordOk =>
      s.(rows := RecordRow(s.rows, x.batch[0].eventId, s.clock, x.phase.err),
         workers := s.workers[w := StartBatch(x.at, x.batch[1..])])
    case RecordLost =>
      s.(rows := RecordRow(s.rows, x.batch[0].eventId, s.clock, x.phase.err),
         logs := s.logs + [RecordFailedLog(x.batch[0].eventId)],
         workers := s.workers[w := StartBatch(x.at, x.batch[1..])])
    case RecordFailed =>
      s.(logs := s.logs + [RecordFailedLog(x.batch[0].eventId)],
         workers := s.workers[w := StartBatch(x.at, x.batch[1..])])
    case Crash => s.(workers := s.workers[w := Idle])
  }

  // ------------------------------------------------------------------- runs

  predicate Enabled(c: Config, s: State, a: Action) {
    match a
    case Tick(_) => true
    case AccountConsumes(k) => k < |s.broker| && s.broker[k].payload.FactionSet?
    case OfCall(k, op) => CallEnabled(c, s, k, op)
    case OfWorker(w, op) => WorkerEnabled(c, s, w, op)
  }

  function Step(c: Config, s: State, a: Action): State
    requires Enabled(c, s, a)
  {
    match a
    case Tick(d) => s.(clock := s.clock + d)
    case AccountConsumes(k) =>
      var p := s.broker[k].payload;
      s.(account := s.account[p.playerId := p.initialFactionId])
    case OfCall(k, op) => CallStep(c, s, k, op)
    case OfWorker(w, op) => WorkerStep(c, s, w, op)
  }

  predicate ValidRun(c: Config, s: State, run: seq<Action>)
    decreases |run|
  {
    run == [] || (Enabled(c, s, run[0]) && ValidRun(c, Step(c, s, run[0]), run[1..]))
  }

  function Exec(c: Config, s: State, run: seq<Action>): State
    requires ValidRun(c, s, run)
    decreases |run|
  {
    if run == [] then s else Exec(c, Step(c, s, run[0]), run[1..])
  }

  /** Runs compose: the second starts where the first ended. */
  lemma {:induction false} RunConcat(c: Config, s: State, r1: seq<Action>, r2: seq<Action>)
    requires ValidRun(c, s, r1)
    requires ValidRun(c, Exec(c, s, r1), r2)
    ensures ValidRun(c, s, r1 + r2)
    ensures Exec(c, s, r1 + r2) == Exec(c, Exec(c, s, r1), r2)
    decreases |r1|
  {
    if r1 == [] {
      assert r1 + r2 == r2;
    } else {
      RunConcat(c, Step(c, s, r1[0]), r1[1..], r2);
      assert (r1 + r2)[1..] == r1[1..] + r2;
    }
  }

  /** One more action at the end of a run. */
  lemma Snoc(c: Config, s: State, run: seq<Action>, a: Action)
    requires ValidRun(c, s, run) && Enabled(c, Exec(c, s, run), a)
    ensures ValidRun(c, s, run + [a]) && Exec(c, s, run + [a]) == Step(c, Exec(c, s, run), a)
  {
    assert [a][1..] == [];
    RunConcat(c, s, run, [a]);
  }
}
