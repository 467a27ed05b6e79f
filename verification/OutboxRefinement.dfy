/** Every run of the whole system is a run of the three-action delivery spec. */
module OutboxRefinement {
  import opened OutboxModel
  import opened OutboxInvariant
  import opened DeliverySpec

  function FactOf(row: Row): Fact {
    Fact(MessageOf(row), row.createdAt)
  }

  function Abs(s: State): Spec {
    Spec(
      map id | id in s.rows :: FactOf(s.rows[id]),
      s.broker,
      set id | id in s.rows && s.rows[id].publishedAt.Some?)
  }

  /** Which spec action an action of the system is. */
  function Label(c: Config, s: State, a: Action): SpecAction
    requires Enabled(c, s, a)
  {
    match a
    case Tick(_) => Stutter
    case AccountConsumes(_) => Stutter
    case OfCall(k, op) =>
      if op.Commit? then
        var rows' := CallStep(c, s, k, op).rows;
        Enqueue(map id | id in rows' && id !in s.rows :: FactOf(rows'[id]))
      else Stutter
    case OfWorker(w, op) =>
      if op.PublishOk? || op.PublishUnknown? then Deliver(s.workers[w].batch[0].eventId)
      else if op.MarkOk? || op.MarkLost? then Acknowledge(s.workers[w].batch[0].eventId)
      else Stutter
  }

  function Labels(c: Config, s: State, run: seq<Action>): seq<SpecAction>
    requires ValidRun(c, s, run)
    decreases |run|
  {
    if run == [] then [] else [Label(c, s, run[0])] + Labels(c, Step(c, s, run[0]), run[1..])
  }

  /** Two states with the same table abstract to the same events and acknowledgements. */
  lemma SameRows(s: State, s': State)
    requires s'.rows.Keys == s.rows.Keys
    requires forall id | id in s.rows :: Keeps(s.rows[id], s'.rows[id])
    ensures Abs(s').events == Abs(s).events
  {
  }

  /** A commit enqueues exactly the rows it adds, all of them unpublished. */
  lemma CommitEnqueues(s: State, s': State, more: map<EventId, Fact>)
    requires forall id | id in s.rows :: id in s'.rows && s'.rows[id] == s.rows[id]
    requires forall id | id in s'.rows && id !in s.rows :: s'.rows[id].publishedAt.None?
    requires more == map id | id in s'.rows && id !in s.rows :: FactOf(s'.rows[id])
    requires s'.broker == s.broker
    ensures Abs(s') == Abs(s).(events := Abs(s).events + more)
  {
    assert Abs(s').events == Abs(s).events + more;
    assert Abs(s').acked == Abs(s).acked;
  }

  lemma CommitAddsUnpublished(c: Config, s: State, k: CallId)
    requires CallEnabled(c, s, k, Commit) && CallsOk(s)
    ensures var s' := CallStep(c, s, k, Commit);
            && (forall id | id in s.rows :: id in s'.rows && s'.rows[id] == s.rows[id])
            && (forall id | id in s'.rows && id !in s.rows :: s'.rows[id].publishedAt.None?)
  {
    CommitRows(c, s, k);
    var s' := CallStep(c, s, k, Commit);
    var events := s.calls[k].events;
    forall id | id in s'.rows && id !in s.rows
      ensures s'.rows[id].publishedAt.None?
    {
      var i :| 0 <= i < |events| && events[i].eventId == id;
      assert s'.rows[id] == NewRow(events[i], s.calls[k].begun.value);
    }
  }

  lemma CommitRefines(c: Config, s: State, k: CallId)
    requires CallEnabled(c, s, k, Commit) && CallsOk(s)
    ensures SpecEnabled(Abs(s), Label(c, s, OfCall(k, Commit)))
    ensures SpecStep(Abs(s), Label(c, s, OfCall(k, Commit))) == Abs(CallStep(c, s, k, Commit))
  {
    CommitAddsUnpublished(c, s, k);
    CommitEnqueues(s, CallStep(c, s, k, Commit), Label(c, s, OfCall(k, Commit)).more);
  }

  /** Marking is the only way to become published, and it marks the head of the batch. */
  lemma WorkerPublishes(c: Config, s: State, w: nat, op: WorkerOp, id: EventId)
    requires WorkerEnabled(c, s, w, op) && WorkersOk(c, s) && id in s.rows
    ensures id in WorkerStep(c, s, w, op).rows
    ensures WorkerStep(c, s, w, op).rows[id].publishedAt.Some? <==>
              s.rows[id].publishedAt.Some?
              || ((op.MarkOk? || op.MarkLost?) && s.workers[w].batch[0].eventId == id)
  {
    assert WorkerOk(c, s, s.workers[w]);
  }

  /** What a worker delivers or marks is the row it claimed, delivered before it is marked. */
  lemma HeadIsRow(c: Config, s: State, w: nat, op: WorkerOp)
    requires WorkerEnabled(c, s, w, op) && WorkersOk(c, s) && s.workers[w].Working?
    ensures var ev := s.workers[w].batch[0];
            && s.workers[w].batch != []
            && ev.eventId in s.rows
            && MessageOf(s.rows[ev.eventId]) == Message(ev.eventType, ev.payload)
            && (op.MarkOk? || op.MarkLost? ==> Message(ev.eventType, ev.payload) in s.broker)
  {
    assert WorkerOk(c, s, s.workers[w]);
    assert ClaimedOk(s.rows, s.workers[w].at, s.workers[w].batch[0]);
  }

  lemma WorkerAcks(c: Config, s: State, w: nat, op: WorkerOp)
    requires WorkerEnabled(c, s, w, op) && RowsOk(s) && WorkersOk(c, s)
    ensures Abs(WorkerStep(c, s, w, op)).acked ==
              if op.MarkOk? || op.MarkLost? then Abs(s).acked + {s.workers[w].batch[0].eventId} else Abs(s).acked
  {
    WorkerRows(c, s, w, op);
    if op.MarkOk? || op.MarkLost? {
      HeadIsRow(c, s, w, op);
    }
    forall id | id in s.rows
      ensures id in Abs(WorkerStep(c, s, w, op)).acked <==>
                id in Abs(s).acked || ((op.MarkOk? || op.MarkLost?) && s.workers[w].batch[0].eventId == id)
    {
      WorkerPublishes(c, s, w, op, id);
    }
  }

  lemma WorkerRefines(c: Config, s: State, w: nat, op: WorkerOp)
    requires WorkerEnabled(c, s, w, op) && RowsOk(s) && WorkersOk(c, s)
    ensures SpecEnabled(Abs(s), Label(c, s, OfWorker(w, op)))
    ensures SpecStep(Abs(s), Label(c, s, OfWorker(w, op))) == Abs(WorkerStep(c, s, w, op))
  {
    WorkerRows(c, s, w, op);
    SameRows(s, WorkerStep(c, s, w, op));
    WorkerAcks(c, s, w, op);
    if s.workers[w].Working? {
      HeadIsRow(c, s, w, op);
    }
  }

  /** One action of the system is one action, or a stutter, of the spec. */
  lemma StepRefines(c: Config, s: State, a: Action)
    requires Enabled(c, s, a) && RowsOk(s) && WorkersOk(c, s) && CallsOk(s)
    ensures SpecEnabled(Abs(s), Label(c, s, a))
    ensures SpecStep(Abs(s), Label(c, s, a)) == Abs(Step(c, s, a))
  {
    match a
    case Tick(_) =>
    case AccountConsumes(_) =>
    case OfCall(k, op) =>
      if op.Commit? {
        CommitRefines(c, s, k);
      } else {
        CallFrame(c, s, k, op);
      }
    case OfWorker(w, op) => WorkerRefines(c, s, w, op);
  }

  lemma {:induction false} RunRefines(c: Config, s: State, run: seq<Action>)
    requires ValidRun(c, s, run) && Inv(c, s)
    ensures SpecRun(Abs(s), Labels(c, s, run))
    ensures SpecExec(Abs(s), Labels(c, s, run)) == Abs(Exec(c, s, run))
    decreases |run|
  {
    if run != [] {
      StepRefines(c, s, run[0]);
      StepInv(c, s, run[0]);
      RunRefines(c, Step(c, s, run[0]), run[1..]);
      assert Labels(c, s, run)[1..] == Labels(c, Step(c, s, run[0]), run[1..]);
    }
  }

  /**
   * The outbox promise, for every interleaving and every failure point: a row
   * marked published was accepted by the broker, and every broker message is
   * the type and payload of a committed row.
   */
  lemma OutboxPromise(c: Config, run: seq<Action>)
    requires ValidRun(c, Init(c), run)
    ensures var s := Exec(c, Init(c), run);
            && (forall id | id in s.rows && s.rows[id].publishedAt.Some? :: MessageOf(s.rows[id]) in s.broker)
            && (forall m | m in s.broker :: exists id :: id in s.rows && MessageOf(s.rows[id]) == m)
  {
    InitInv(c);
    RunRefines(c, Init(c), run);
    assert Abs(Init(c)) == EMPTY;
    SpecRunSafe(EMPTY, Labels(c, Init(c), run));
    var s := Exec(c, Init(c), run);
    forall id | id in s.rows && s.rows[id].publishedAt.Some?
      ensures MessageOf(s.rows[id]) in s.broker
    {
      assert id in Abs(s).acked;
    }
    forall m | m in s.broker
      ensures exists id :: id in s.rows && MessageOf(s.rows[id]) == m
    {
      var id :| id in Abs(s).events && Abs(s).events[id].message == m;
    }
  }

  /** No row is lost, altered or un-published, and no message is withdrawn, whatever happens later. */
  lemma NothingLost(c: Config, run: seq<Action>, later: seq<Action>)
    requires ValidRun(c, Init(c), run) && ValidRun(c, Exec(c, Init(c), run), later)
    ensures var s := Exec(c, Init(c), run);
            var s' := Exec(c, s, later);
            && s.broker <= s'.broker
            && forall id | id in s.rows ::
                 && id in s'.rows
                 && MessageOf(s'.rows[id]) == MessageOf(s.rows[id])
                 && s'.rows[id].createdAt == s.rows[id].createdAt
                 && (s.rows[id].publishedAt.Some? ==> s'.rows[id].publishedAt.Some?)
  {
    ReachableInv(c, run);
    var s := Exec(c, Init(c), run);
    var s' := Exec(c, s, later);
    InitInv(c);
    RunRefines(c, Init(c), run);
    RunRefines(c, s, later);
    assert Abs(Init(c)) == EMPTY;
    SpecRunSafe(EMPTY, Labels(c, Init(c), run));
    SpecRunSafe(Abs(s), Labels(c, s, later));
    forall id | id in s.rows
      ensures id in s'.rows && FactOf(s'.rows[id]) == FactOf(s.rows[id])
      ensures s.rows[id].publishedAt.Some? ==> s'.rows[id].publishedAt.Some?
    {
      assert id in Abs(s).events;
      assert Abs(s').events[id] == Abs(s).events[id];
      if s.rows[id].publishedAt.Some? {
        assert id in Abs(s).acked;
        assert id in Abs(s').acked;
      }
    }
  }
}
