/** What every action keeps: the inductive invariant behind all outbox theorems. */
module OutboxInvariant {
  import opened Wrappers
  import opened OutboxModel

  // -------------------------------------------------------------- predicates

  ghost predicate RowOk(s: State, id: EventId, row: Row) {
    && row.payload.eventId == id
    && row.eventType == EventTypeOf(row.payload)
    && row.createdAt <= s.clock
    && (row.lastAttemptedAt.Some? ==> row.lastAttemptedAt.value <= s.clock)
    && (row.publishedAt.Some? ==> row.publishedAt.value <= s.clock && MessageOf(row) in s.broker)
  }

  ghost predicate RowsOk(s: State) {
    forall id | id in s.rows :: RowOk(s, id, s.rows[id])
  }

  /** A held claim still describes its row, and the row still carries the stamp or a later one. */
  ghost predicate ClaimedOk(rows: Table, at: Time, ev: Claimed) {
    && ev.eventId in rows
    && ev.eventType == rows[ev.eventId].eventType
    && ev.payload == rows[ev.eventId].payload
    && rows[ev.eventId].lastAttemptedAt.Some?
    && at <= rows[ev.eventId].lastAttemptedAt.value
  }

  ghost predicate Distinct(batch: seq<Claimed>) {
    forall i, j | 0 <= i < j < |batch| :: batch[i].eventId != batch[j].eventId
  }

  ghost predicate WorkerOk(c: Config, s: State, x: Worker) {
    match x
    case Idle => true
    case Claiming(now, ids) =>
      && now <= s.clock
      && (forall id | id in ids :: id in s.rows && Eligible(c, s.rows[id], now))
    case Working(at, batch, phase) =>
      && at <= s.clock
      && batch != []
      && Distinct(batch)
      && (forall k | 0 <= k < |batch| :: ClaimedOk(s.rows, at, batch[k]))
      && (phase.ToMark? ==> Message(batch[0].eventType, batch[0].payload) in s.broker)
  }

  ghost predicate WorkersOk(c: Config, s: State) {
    && |s.workers| == c.workers
    && forall w | 0 <= w < |s.workers| :: WorkerOk(c, s, s.workers[w])
  }

  /** Row locks held at the same time never overlap. */
  ghost predicate LocksDisjoint(s: State) {
    forall v, w | 0 <= v < w < |s.workers| && s.workers[v].Claiming? && s.workers[w].Claiming? ::
      s.workers[v].ids !! s.workers[w].ids
  }

  ghost predicate BrokerOk(s: State) {
    forall m | m in s.broker :: m.payload.eventId in s.rows && MessageOf(s.rows[m.payload.eventId]) == m
  }

  ghost predicate CallShape(call: Call) {
    && (forall k | 0 <= k < |call.events| :: call.events[k] == EventFor(call.events[k].payload))
    && match call.key
       case None => forall k | 0 <= k < |call.events| :: !call.events[k].payload.Onboarded?
       case Some(p) => |call.events| == 1 && call.events[0].payload.Onboarded? && call.events[0].payload.playerId == p
  }

  ghost predicate CallOk(s: State, call: Call) {
    && CallShape(call)
    && call.written <= |call.events|
    && (call.begun.Some? ==> call.begun.value <= s.clock)
    && (call.keyStaged ==> call.key.Some? && call.key.value !in s.onboarded)
    && (forall i, j | 0 <= i < j < call.written :: call.events[i].eventId != call.events[j].eventId)
    && (forall i | 0 <= i < call.written :: call.events[i].eventId !in s.rows)
  }

  ghost predicate CallsOk(s: State) {
    forall k | k in s.calls :: CallOk(s, s.calls[k])
  }

  ghost predicate Compatible(a: Call, b: Call) {
    && !(a.keyStaged && b.keyStaged && a.key == b.key)
    && (forall i, j | 0 <= i < a.written <= |a.events| && 0 <= j < b.written <= |b.events| ::
          a.events[i].eventId != b.events[j].eventId)
  }

  /** Unique-key locks: two open transactions never stage the same key. */
  ghost predicate CallsCompatible(s: State) {
    forall j, k | j in s.calls && k in s.calls && j != k :: Compatible(s.calls[j], s.calls[k])
  }

  predicate Names(row: Row, p: PlayerId) {
    row.payload.Onboarded? && row.payload.playerId == p
  }

  /** The player_onboarding table and the player_onboarded rows tell the same story. */
  ghost predicate OnceOk(s: State) {
    && (forall p | p in s.onboarded :: exists id :: id in s.rows && Names(s.rows[id], p))
    && (forall id | id in s.rows && s.rows[id].payload.Onboarded? :: s.rows[id].payload.playerId in s.onboarded)
    && (forall i, j | i in s.rows && j in s.rows && s.rows[i].payload.Onboarded?
                      && Names(s.rows[j], s.rows[i].payload.playerId) :: i == j)
  }

  ghost predicate Inv(c: Config, s: State) {
    && RowsOk(s)
    && WorkersOk(c, s)
    && LocksDisjoint(s)
    && BrokerOk(s)
    && CallsOk(s)
    && CallsCompatible(s)
    && OnceOk(s)
  }

  // -------------------------------------------------------- effects on rows

  /** Identity, type, payload and creation time are immutable; publication is final. */
  ghost predicate Keeps(r: Row, r': Row) {
    && r'.eventType == r.eventType
    && r'.payload == r.payload
    && r'.createdAt == r.createdAt
    && (r.publishedAt.Some? ==> r'.publishedAt.Some?)
    && r.failureCount <= r'.failureCount <= r.failureCount + 1
    && (r.lastAttemptedAt.Some? ==>
          r'.lastAttemptedAt.Some? && r.lastAttemptedAt.value <= r'.lastAttemptedAt.value)
  }

  /** The rows a worker action writes. */
  ghost function Touched(s: State, w: nat, op: WorkerOp): set<EventId>
    requires w < |s.workers|
  {
    var x := s.workers[w];
    if (op.ClaimCommit? || op.ClaimLost?) && x.Claiming? then x.ids
    else if (op.MarkOk? || op.MarkLost? || op.RecordOk? || op.RecordLost?) && x.Working? && x.batch != []
    then {x.batch[0].eventId}
    else {}
  }

  lemma WorkerRow(c: Config, s: State, w: nat, op: WorkerOp, id: EventId)
    requires WorkerEnabled(c, s, w, op) && WorkersOk(c, s) && id in s.rows && RowOk(s, id, s.rows[id])
    ensures var s' := WorkerStep(c, s, w, op);
            && id in s'.rows
            && Keeps(s.rows[id], s'.rows[id])
            && (id !in Touched(s, w, op) ==> s'.rows[id] == s.rows[id])
  {
    assert WorkerOk(c, s, s.workers[w]);
  }

  lemma WorkerRows(c: Config, s: State, w: nat, op: WorkerOp)
    requires WorkerEnabled(c, s, w, op) && RowsOk(s) && WorkersOk(c, s)
    ensures var s' := WorkerStep(c, s, w, op);
            && s'.rows.Keys == s.rows.Keys
            && (forall id | id in s.rows :: Keeps(s.rows[id], s'.rows[id]))
            && (forall id | id in s.rows && id !in Touched(s, w, op) :: s'.rows[id] == s.rows[id])
  {
    var s' := WorkerStep(c, s, w, op);
    WorkerKeepsKeys(c, s, w, op);
    forall id | id in s.rows
      ensures Keeps(s.rows[id], s'.rows[id]) && (id !in Touched(s, w, op) ==> s'.rows[id] == s.rows[id])
    {
      assert RowOk(s, id, s.rows[id]);
      WorkerRow(c, s, w, op, id);
    }
  }

  lemma WorkerKeepsKeys(c: Config, s: State, w: nat, op: WorkerOp)
    requires WorkerEnabled(c, s, w, op)
    ensures WorkerStep(c, s, w, op).rows.Keys == s.rows.Keys
  {
  }

  ghost function IdsOf(events: seq<OutboxEvent>): set<EventId> {
    set k | 0 <= k < |events| :: events[k].eventId
  }

  lemma {:induction false} AddRowsSpec(rows: Table, events: seq<OutboxEvent>, t: Time)
    requires forall i, j | 0 <= i < j < |events| :: events[i].eventId != events[j].eventId
    ensures AddRows(rows, events, t).Keys == rows.Keys + IdsOf(events)
    ensures forall k | 0 <= k < |events| ::
              events[k].eventId in AddRows(rows, events, t)
              && AddRows(rows, events, t)[events[k].eventId] == Row(events[k].eventType, events[k].payload, t, None, 0, None, None)
    ensures forall id | id in rows && id !in IdsOf(events) :: AddRows(rows, events, t)[id] == rows[id]
    decreases |events|
  {
    if events != [] {
      var rows1 := rows[events[0].eventId := NewRow(events[0], t)];
      AddRowsSpec(rows1, events[1..], t);
      assert IdsOf(events) == {events[0].eventId} + IdsOf(events[1..]) by {
        assert forall k | 1 <= k < |events| :: events[k] == events[1..][k - 1];
      }
      assert events[0].eventId !in IdsOf(events[1..]);
      forall k | 0 <= k < |events|
        ensures events[k].eventId in AddRows(rows, events, t)
                && AddRows(rows, events, t)[events[k].eventId] == Row(events[k].eventType, events[k].payload, t, None, 0, None, None)
      {
        if k > 0 {
          assert events[1..][k - 1] == events[k];
        }
      }
    }
  }

  /** A commit only adds rows, exactly the staged ones, and never overwrites. */
  lemma CommitRows(c: Config, s: State, k: CallId)
    requires CallEnabled(c, s, k, Commit) && CallsOk(s)
    ensures var s' := CallStep(c, s, k, Commit);
            && s'.rows.Keys == s.rows.Keys + IdsOf(s.calls[k].events)
            && s.rows.Keys !! IdsOf(s.calls[k].events)
            && (forall id | id in s.rows :: s'.rows[id] == s.rows[id])
            && (forall i | 0 <= i < |s.calls[k].events| ::
                  s'.rows[s.calls[k].events[i].eventId] ==
                    Row(s.calls[k].events[i].eventType, s.calls[k].events[i].payload, s.calls[k].begun.value, None, 0, None, None))
  {
    assert CallOk(s, s.calls[k]);
    AddRowsSpec(s.rows, s.calls[k].events, s.calls[k].begun.value);
  }

  // ----------------------------------------------------------- preservation

  lemma InitInv(c: Config)
    ensures Inv(c, Init(c))
  {
  }

  lemma HeldRest(at: Time, batch: seq<Claimed>, phase: Phase)
    requires batch != [] && Distinct(batch)
    ensures Held(StartBatch(at, batch[1..])) == Held(Working(at, batch, phase)) - {batch[0].eventId}
    ensures Distinct(batch[1..])
  {
    assert forall k | 1 <= k < |batch| :: batch[k] == batch[1..][k - 1];
  }

  lemma WorkerKeepsRowOk(c: Config, s: State, w: nat, op: WorkerOp, id: EventId)
    requires WorkerEnabled(c, s, w, op) && WorkersOk(c, s) && id in s.rows && RowOk(s, id, s.rows[id])
    ensures var s' := WorkerStep(c, s, w, op);
            id in s'.rows && RowOk(s', id, s'.rows[id])
  {
    var x := s.workers[w];
    assert WorkerOk(c, s, x);
    if x.Working? {
      assert ClaimedOk(s.rows, x.at, x.batch[0]);
    }
  }

  lemma WorkerKeepsRowsOk(c: Config, s: State, w: nat, op: WorkerOp)
    requires WorkerEnabled(c, s, w, op) && RowsOk(s) && WorkersOk(c, s)
    ensures RowsOk(WorkerStep(c, s, w, op))
  {
    var s' := WorkerStep(c, s, w, op);
    WorkerRows(c, s, w, op);
    forall id | id in s'.rows
      ensures RowOk(s', id, s'.rows[id])
    {
      assert RowOk(s, id, s.rows[id]);
      WorkerKeepsRowOk(c, s, w, op, id);
    }
  }

  /** A committed claim yields a batch that describes the stamped rows. */
  lemma FreshBatchOk(rows: Table, ids: set<EventId>, now: Time, order: seq<EventId>)
    requires Listing(order, ids) && ids <= rows.Keys
    ensures var rows' := Stamp(rows, ids, now);
            var batch := ReadClaimed(rows', order);
            && Distinct(batch)
            && Held(Working(now, batch, ToPublish)) == ids
            && (forall k | 0 <= k < |batch| :: ClaimedOk(rows', now, batch[k]))
  {
    var batch := ReadClaimed(Stamp(rows, ids, now), order);
    forall id | id in ids
      ensures id in Held(Working(now, batch, ToPublish))
    {
      var k :| 0 <= k < |order| && order[k] == id;
      assert batch[k].eventId == id;
    }
  }

  lemma RestOk(c: Config, s: State, at: Time, batch: seq<Claimed>)
    requires batch != [] && at <= s.clock && Distinct(batch)
    requires forall k | 0 <= k < |batch| :: ClaimedOk(s.rows, at, batch[k])
    ensures WorkerOk(c, s, StartBatch(at, batch[1..]))
  {
    assert forall k | 0 <= k < |batch[1..]| :: batch[1..][k] == batch[k + 1];
  }

  /** The acting worker's own next state is in order. */
  lemma ActorOk(c: Config, s: State, w: nat, op: WorkerOp)
    requires WorkerEnabled(c, s, w, op) && Inv(c, s)
    ensures WorkerOk(c, WorkerStep(c, s, w, op), WorkerStep(c, s, w, op).workers[w])
  {
    var x := s.workers[w];
    var s' := WorkerStep(c, s, w, op);
    assert WorkerOk(c, s, x);
    if x.Working? {
      WorkerRows(c, s, w, op);
      forall k | 0 <= k < |x.batch|
        ensures ClaimedOk(s'.rows, x.at, x.batch[k])
      {
        assert ClaimedOk(s.rows, x.at, x.batch[k]);
      }
      RestOk(c, s', x.at, x.batch);
    } else if op.ClaimCommit? {
      FreshBatchOk(s.rows, x.ids, x.now, op.order);
    }
  }

  /** Nobody else's claims are disturbed. */
  lemma OthersOk(c: Config, s: State, w: nat, op: WorkerOp, v: nat)
    requires WorkerEnabled(c, s, w, op) && Inv(c, s) && v < |s.workers| && v != w
    ensures WorkerOk(c, WorkerStep(c, s, w, op), s.workers[v])
  {
    var s' := WorkerStep(c, s, w, op);
    var y := s.workers[v];
    assert WorkerOk(c, s, y) && WorkerOk(c, s, s.workers[w]);
    WorkerRows(c, s, w, op);
    if y.Claiming? {
      assert y.ids !! Touched(s, w, op);
    }
    if y.Working? {
      assert forall k | 0 <= k < |y.batch| :: ClaimedOk(s.rows, y.at, y.batch[k]);
    }
  }

  lemma WorkerKeepsWorkers(c: Config, s: State, w: nat, op: WorkerOp)
    requires WorkerEnabled(c, s, w, op) && Inv(c, s)
    ensures WorkersOk(c, WorkerStep(c, s, w, op)) && LocksDisjoint(WorkerStep(c, s, w, op))
  {
    var s' := WorkerStep(c, s, w, op);
    forall v | 0 <= v < |s'.workers|
      ensures WorkerOk(c, s', s'.workers[v])
    {
      if v == w {
        ActorOk(c, s, w, op);
      } else {
        OthersOk(c, s, w, op, v);
      }
    }
  }

  lemma WorkerKeepsBrokerOk(c: Config, s: State, w: nat, op: WorkerOp)
    requires WorkerEnabled(c, s, w, op) && RowsOk(s) && WorkersOk(c, s) && BrokerOk(s)
    ensures BrokerOk(WorkerStep(c, s, w, op))
  {
    WorkerRows(c, s, w, op);
    var x := s.workers[w];
    assert WorkerOk(c, s, x);
    if x.Working? {
      assert ClaimedOk(s.rows, x.at, x.batch[0]);
      assert RowOk(s, x.batch[0].eventId, s.rows[x.batch[0].eventId]);
    }
  }

  /** Calls and the onboarding facts depend on nothing a worker changes. */
  lemma SameFacts(s: State, s': State)
    requires s'.rows.Keys == s.rows.Keys && forall id | id in s.rows :: Keeps(s.rows[id], s'.rows[id])
    requires s'.calls == s.calls && s'.onboarded == s.onboarded && s.clock <= s'.clock
    requires CallsOk(s) && CallsCompatible(s) && OnceOk(s)
    ensures CallsOk(s') && CallsCompatible(s') && OnceOk(s')
  {
    forall k | k in s'.calls
      ensures CallOk(s', s'.calls[k])
    {
      assert CallOk(s, s.calls[k]);
    }
    forall p | p in s'.onboarded
      ensures exists id :: id in s'.rows && Names(s'.rows[id], p)
    {
      var id :| id in s.rows && Names(s.rows[id], p);
      assert Names(s'.rows[id], p);
    }
  }

  lemma WorkerInv(c: Config, s: State, w: nat, op: WorkerOp)
    requires WorkerEnabled(c, s, w, op) && Inv(c, s)
    ensures Inv(c, WorkerStep(c, s, w, op))
  {
    WorkerKeepsRowsOk(c, s, w, op);
    WorkerKeepsWorkers(c, s, w, op);
    WorkerKeepsBrokerOk(c, s, w, op);
    WorkerRows(c, s, w, op);
    SameFacts(s, WorkerStep(c, s, w, op));
  }

  /** What the service builds always has the shape the repository relies on. */
  lemma StartedShape(c: Config, s: State, op: CallOp)
    requires op.StartUpdateName? || op.StartSelectFaction? || op.StartComplete?
    requires StartedCall(c, s, op).Ok?
    ensures var call := StartedCall(c, s, op).value;
            CallShape(call) && call.begun.None? && !call.keyStaged && call.written == 0
  {
  }

  lemma WrittenOk(c: Config, s: State, k: CallId)
    requires CallEnabled(c, s, k, WriteEvent) && CallsOk(s) && k in CallStep(c, s, k, WriteEvent).calls
    ensures CallOk(CallStep(c, s, k, WriteEvent), CallStep(c, s, k, WriteEvent).calls[k])
  {
    var call := s.calls[k];
    assert CallOk(s, call);
    var id := call.events[call.written].eventId;
    assert forall i | 0 <= i < call.written :: call.events[i].eventId != id by {
      assert !Stages(call, id);
    }
  }

  /** The acting call, if it survives its own action. */
  lemma ActingCallOk(c: Config, s: State, k: CallId, op: CallOp)
    requires CallEnabled(c, s, k, op) && Inv(c, s) && k in CallStep(c, s, k, op).calls
    ensures CallOk(CallStep(c, s, k, op), CallStep(c, s, k, op).calls[k])
  {
    if op.StartUpdateName? || op.StartSelectFaction? || op.StartComplete? {
      StartedShape(c, s, op);
    } else if op.WriteEvent? {
      WrittenOk(c, s, k);
    } else {
      assert CallOk(s, s.calls[k]);
    }
  }

  lemma OtherCallOk(c: Config, s: State, k: CallId, op: CallOp, j: CallId)
    requires CallEnabled(c, s, k, op) && Inv(c, s) && j in s.calls && j != k
    ensures CallOk(CallStep(c, s, k, op), s.calls[j])
  {
    assert CallOk(s, s.calls[j]);
    if op.Commit? {
      CommitRows(c, s, k);
      assert CallOk(s, s.calls[k]);
      assert Compatible(s.calls[j], s.calls[k]);
    } else {
      assert CallStep(c, s, k, op).rows == s.rows && CallStep(c, s, k, op).onboarded == s.onboarded;
    }
  }

  lemma CompatibleBothWays(a: Call, b: Call)
    requires Compatible(a, b)
    ensures Compatible(b, a)
  {
  }

  /** What the acting call stages next, nobody else has staged. */
  lemma NewKeyCompatible(s: State, k: CallId, j: CallId)
    requires j in s.calls && k in s.calls && j != k && Compatible(s.calls[k], s.calls[j])
    requires s.calls[k].key.Some? && !KeyLocked(s, k, s.calls[k].key.value)
    ensures Compatible(s.calls[k].(keyStaged := true), s.calls[j])
  {
  }

  lemma NewEventCompatible(s: State, k: CallId, j: CallId)
    requires j in s.calls && k in s.calls && j != k && Compatible(s.calls[k], s.calls[j])
    requires s.calls[j].written <= |s.calls[j].events|
    requires s.calls[k].written < |s.calls[k].events|
    requires !IdLocked(s, k, s.calls[k].events[s.calls[k].written].eventId)
    ensures Compatible(s.calls[k].(written := s.calls[k].written + 1), s.calls[j])
  {
    assert !Stages(s.calls[j], s.calls[k].events[s.calls[k].written].eventId);
  }

  lemma NothingStagedYet(a: Call, b: Call)
    requires !a.keyStaged && a.written == 0
    ensures Compatible(a, b)
  {
  }

  lemma ActingCompatible(c: Config, s: State, k: CallId, op: CallOp, j: CallId)
    requires CallEnabled(c, s, k, op) && CallsOk(s) && CallsCompatible(s) && k in CallStep(c, s, k, op).calls
    requires j in s.calls && j != k
    ensures Compatible(CallStep(c, s, k, op).calls[k], s.calls[j])
  {
    assert CallOk(s, s.calls[j]);
    if op.InsertPlayer? {
      NewKeyCompatible(s, k, j);
    } else if op.WriteEvent? {
      NewEventCompatible(s, k, j);
    } else if op.BeginTx? {
      assert Compatible(s.calls[k], s.calls[j]);
    } else {
      NothingStagedYet(CallStep(c, s, k, op).calls[k], s.calls[j]) by {
        StartedShape(c, s, op);
      }
    }
  }

  lemma OnlyActorChanges(c: Config, s: State, k: CallId, op: CallOp, j: CallId)
    requires CallEnabled(c, s, k, op) && j != k
    ensures j in CallStep(c, s, k, op).calls <==> j in s.calls
    ensures j in s.calls ==> CallStep(c, s, k, op).calls[j] == s.calls[j]
  {
  }

  lemma CallKeepsCalls(c: Config, s: State, k: CallId, op: CallOp)
    requires CallEnabled(c, s, k, op) && Inv(c, s)
    ensures CallsOk(CallStep(c, s, k, op)) && CallsCompatible(CallStep(c, s, k, op))
  {
    var s' := CallStep(c, s, k, op);
    forall j | j in s'.calls
      ensures CallOk(s', s'.calls[j])
    {
      if j == k {
        ActingCallOk(c, s, k, op);
      } else {
        OnlyActorChanges(c, s, k, op, j);
        OtherCallOk(c, s, k, op, j);
      }
    }
    forall i, j | i in s'.calls && j in s'.calls && i != j
      ensures Compatible(s'.calls[i], s'.calls[j])
    {
      if i == k {
        OnlyActorChanges(c, s, k, op, j);
        ActingCompatible(c, s, k, op, j);
      } else if j == k {
        OnlyActorChanges(c, s, k, op, i);
        ActingCompatible(c, s, k, op, i);
        CompatibleBothWays(s'.calls[k], s.calls[i]);
      } else {
        OnlyActorChanges(c, s, k, op, i);
        OnlyActorChanges(c, s, k, op, j);
        assert Compatible(s.calls[i], s.calls[j]);
      }
    }
  }

  /** Adding one fresh player together with one fresh row that names it. */
  lemma OneMoreOnboarded(s: State, s': State, id: EventId, p: PlayerId)
    requires OnceOk(s) && p !in s.onboarded && id !in s.rows
    requires s'.rows.Keys == s.rows.Keys + {id} && s'.onboarded == s.onboarded + {p}
    requires forall i | i in s.rows :: s'.rows[i] == s.rows[i]
    requires Names(s'.rows[id], p)
    ensures OnceOk(s')
  {
    forall q | q in s'.onboarded
      ensures exists i :: i in s'.rows && Names(s'.rows[i], q)
    {
      if q != p {
        var i :| i in s.rows && Names(s.rows[i], q);
        assert Names(s'.rows[i], q);
      }
    }
  }

  /** Adding rows that name no player. */
  lemma NoMoreOnboarded(s: State, s': State)
    requires OnceOk(s) && s'.onboarded == s.onboarded && s.rows.Keys <= s'.rows.Keys
    requires forall i | i in s.rows :: s'.rows[i] == s.rows[i]
    requires forall i | i in s'.rows && i !in s.rows :: !s'.rows[i].payload.Onboarded?
    ensures OnceOk(s')
  {
    forall q | q in s'.onboarded
      ensures exists i :: i in s'.rows && Names(s'.rows[i], q)
    {
      var i :| i in s.rows && Names(s.rows[i], q);
      assert Names(s'.rows[i], q);
    }
  }

  lemma CommitKeepsOnce(c: Config, s: State, k: CallId)
    requires CallEnabled(c, s, k, Commit) && CallsOk(s) && OnceOk(s)
    ensures OnceOk(CallStep(c, s, k, Commit))
  {
    var s' := CallStep(c, s, k, Commit);
    var call := s.calls[k];
    CommitRows(c, s, k);
    assert CallOk(s, call);
    if call.key.Some? {
      assert IdsOf(call.events) == {call.events[0].eventId};
      OneMoreOnboarded(s, s', call.events[0].eventId, call.key.value);
    } else {
      forall id | id in s'.rows && id !in s.rows
        ensures !s'.rows[id].payload.Onboarded?
      {
        var i :| 0 <= i < |call.events| && call.events[i].eventId == id;
        assert s'.rows[id] == NewRow(call.events[i], call.begun.value);
      }
      NoMoreOnboarded(s, s');
    }
  }

  lemma CommitInv(c: Config, s: State, k: CallId)
    requires CallEnabled(c, s, k, Commit) && Inv(c, s)
    ensures Inv(c, CallStep(c, s, k, Commit))
  {
    var s' := CallStep(c, s, k, Commit);
    CallKeepsCalls(c, s, k, Commit);
    CommitKeepsOnce(c, s, k);
    CommitRows(c, s, k);
    assert CallOk(s, s.calls[k]);
    forall id | id in s'.rows
      ensures RowOk(s', id, s'.rows[id])
    {
      if id in s.rows {
        assert RowOk(s, id, s.rows[id]);
      }
    }
    forall v | 0 <= v < |s'.workers|
      ensures WorkerOk(c, s', s'.workers[v])
    {
      assert WorkerOk(c, s, s.workers[v]);
    }
  }

  /** Every call action except Commit touches only the calls. */
  lemma CallFrame(c: Config, s: State, k: CallId, op: CallOp)
    requires CallEnabled(c, s, k, op) && !op.Commit?
    ensures CallStep(c, s, k, op) == s.(calls := CallStep(c, s, k, op).calls)
  {
  }

  /** The tables and the workers read the clock, the rows and the broker, and nothing else. */
  lemma SameTables(c: Config, s: State, s': State)
    requires s'.rows == s.rows && s'.workers == s.workers && s'.broker == s.broker && s'.onboarded == s.onboarded
    requires s.clock <= s'.clock
    requires RowsOk(s) && WorkersOk(c, s) && LocksDisjoint(s) && BrokerOk(s) && OnceOk(s)
    ensures RowsOk(s') && WorkersOk(c, s') && LocksDisjoint(s') && BrokerOk(s') && OnceOk(s')
  {
    forall id | id in s'.rows
      ensures RowOk(s', id, s'.rows[id])
    {
      assert RowOk(s, id, s.rows[id]);
    }
    forall v | 0 <= v < |s'.workers|
      ensures WorkerOk(c, s', s'.workers[v])
    {
      assert WorkerOk(c, s, s.workers[v]);
    }
  }

  lemma CallInv(c: Config, s: State, k: CallId, op: CallOp)
    requires CallEnabled(c, s, k, op) && Inv(c, s)
    ensures Inv(c, CallStep(c, s, k, op))
  {
    if op.Commit? {
      CommitInv(c, s, k);
    } else {
      CallKeepsCalls(c, s, k, op);
      CallFrame(c, s, k, op);
      SameTables(c, s, CallStep(c, s, k, op));
    }
  }

  /** Time passing and account learning change no table. */
  lemma QuietInv(c: Config, s: State, s': State)
    requires Inv(c, s)
    requires s' == s.(clock := s'.clock, account := s'.account) && s.clock <= s'.clock
    ensures Inv(c, s')
  {
    SameTables(c, s, s');
    forall k | k in s'.calls
      ensures CallOk(s', s'.calls[k])
    {
      assert CallOk(s, s.calls[k]);
    }
  }

  lemma StepInv(c: Config, s: State, a: Action)
    requires Enabled(c, s, a) && Inv(c, s)
    ensures Inv(c, Step(c, s, a))
  {
    match a
    case OfCall(k, op) => CallInv(c, s, k, op);
    case OfWorker(w, op) => WorkerInv(c, s, w, op);
    case Tick(_) => QuietInv(c, s, Step(c, s, a));
    case AccountConsumes(_) => QuietInv(c, s, Step(c, s, a));
  }

  lemma {:induction false} RunInv(c: Config, s: State, run: seq<Action>)
    requires ValidRun(c, s, run) && Inv(c, s)
    ensures Inv(c, Exec(c, s, run))
    decreases |run|
  {
    if run != [] {
      StepInv(c, s, run[0]);
      RunInv(c, Step(c, s, run[0]), run[1..]);
    }
  }

  /** Every state that any run from the empty database reaches is in order. */
  lemma ReachableInv(c: Config, run: seq<Action>)
    requires ValidRun(c, Init(c), run)
    ensures Inv(c, Exec(c, Init(c), run))
  {
    InitInv(c);
    RunInv(c, Init(c), run);
  }
}
