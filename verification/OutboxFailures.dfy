/** Failure counting: how far failure_count can go, and when the stuck log is exact. */
module OutboxFailures {
  import opened OutboxModel
  import opened OutboxInvariant
  import opened OutboxLease

  /** At no point of the run do more than h workers hold one row. */
  ghost predicate CappedRun(c: Config, s: State, run: seq<Action>, h: nat)
    requires ValidRun(c, s, run)
    decreases |run|
  {
    && (forall id :: Holders(s.workers, id) <= h)
    && (run != [] ==> CappedRun(c, Step(c, s, run[0]), run[1..], h))
  }

  ghost predicate WithinBudget(c: Config, s: State, h: nat) {
    forall id | id in s.rows :: s.rows[id].failureCount + Holders(s.workers, id) <= c.threshold - 1 + h
  }

  predicate Records1(op: WorkerOp) {
    op.RecordOk? || op.RecordLost?
  }

  /** Recording is the only way to count a failure, and it counts the head of the batch. */
  lemma FailureEffect(c: Config, s: State, w: nat, op: WorkerOp, id: EventId)
    requires WorkerEnabled(c, s, w, op) && WorkersOk(c, s) && id in s.rows
    ensures id in WorkerStep(c, s, w, op).rows
    ensures WorkerStep(c, s, w, op).rows[id].failureCount ==
              s.rows[id].failureCount + (if Records1(op) && s.workers[w].batch[0].eventId == id then 1 else 0)
  {
    assert WorkerOk(c, s, s.workers[w]);
  }

  /** Recording a failure spends one claim; claiming needs a row below the threshold. */
  lemma WorkerBudget(c: Config, s: State, w: nat, op: WorkerOp, id: EventId, h: nat)
    requires WorkerEnabled(c, s, w, op) && Inv(c, s) && id in s.rows
    requires s.rows[id].failureCount + Holders(s.workers, id) <= c.threshold - 1 + h
    requires Holders(WorkerStep(c, s, w, op).workers, id) <= h
    ensures var s' := WorkerStep(c, s, w, op);
            s'.rows[id].failureCount + Holders(s'.workers, id) <= c.threshold - 1 + h
  {
    FailureEffect(c, s, w, op, id);
    ActorHeld(c, s, w, op);
    HoldersUpdate(s.workers, w, WorkerStep(c, s, w, op).workers[w], id);
  }

  lemma StepBudget(c: Config, s: State, a: Action, h: nat)
    requires ValidConfig(c) && Enabled(c, s, a) && Inv(c, s) && WithinBudget(c, s, h)
    requires forall id :: Holders(Step(c, s, a).workers, id) <= h
    ensures WithinBudget(c, Step(c, s, a), h)
  {
    match a
    case OfWorker(w, op) =>
      var s' := Step(c, s, a);
      WorkerRows(c, s, w, op);
      forall id | id in s'.rows
        ensures s'.rows[id].failureCount + Holders(s'.workers, id) <= c.threshold - 1 + h
      {
        WorkerBudget(c, s, w, op, id, h);
      }
    case OfCall(k, op) =>
      if op.Commit? {
        CommitRows(c, s, k);
        var s' := Step(c, s, a);
        forall id | id in s'.rows
          ensures s'.rows[id].failureCount + Holders(s'.workers, id) <= c.threshold - 1 + h
        {
          if id !in s.rows {
            var i :| 0 <= i < |s.calls[k].events| && s.calls[k].events[i].eventId == id;
            assert s'.rows[id] == NewRow(s.calls[k].events[i], s.calls[k].begun.value);
          }
        }
      }
    case Tick(_) =>
    case AccountConsumes(_) =>
  }

  lemma {:induction false} RunBudget(c: Config, s: State, run: seq<Action>, h: nat)
    requires ValidConfig(c) && ValidRun(c, s, run) && Inv(c, s) && WithinBudget(c, s, h) && CappedRun(c, s, run, h)
    ensures WithinBudget(c, Exec(c, s, run), h)
    decreases |run|
  {
    if run != [] {
      var s' := Step(c, s, run[0]);
      assert CappedRun(c, s', run[1..], h);
      StepBudget(c, s, run[0], h);
      StepInv(c, s, run[0]);
      RunBudget(c, s', run[1..], h);
    }
  }

  lemma {:induction false} WorkersCap(c: Config, s: State, run: seq<Action>)
    requires ValidRun(c, s, run) && Inv(c, s)
    ensures CappedRun(c, s, run, c.workers)
    decreases |run|
  {
    forall id
      ensures Holders(s.workers, id) <= c.workers
    {
      HoldersBounds(s.workers, id);
    }
    if run != [] {
      StepInv(c, s, run[0]);
      WorkersCap(c, Step(c, s, run[0]), run[1..]);
    }
  }

  lemma {:induction false} ExclusiveCap(c: Config, s: State, run: seq<Action>)
    requires ValidRun(c, s, run) && ExclusiveRun(c, s, run)
    ensures CappedRun(c, s, run, 1)
    decreases |run|
  {
    if run != [] {
      ExclusiveCap(c, Step(c, s, run[0]), run[1..]);
    }
  }

  /** Counted failures plus outstanding claims never exceed T-1+W, whatever is interleaved, lost or crashes. */
  lemma FailureBound(c: Config, run: seq<Action>, id: EventId)
    requires ValidConfig(c) && ValidRun(c, Init(c), run) && id in Exec(c, Init(c), run).rows
    ensures var s := Exec(c, Init(c), run);
            s.rows[id].failureCount + Holders(s.workers, id) <= c.threshold - 1 + c.workers
  {
    InitInv(c);
    WorkersCap(c, Init(c), run);
    RunBudget(c, Init(c), run, c.workers);
  }

  /** When claims are exclusive the threshold is never overshot. */
  lemma ExclusiveFailureBound(c: Config, run: seq<Action>, id: EventId)
    requires ValidConfig(c) && ValidRun(c, Init(c), run) && ExclusiveRun(c, Init(c), run)
    requires id in Exec(c, Init(c), run).rows
    ensures var s := Exec(c, Init(c), run);
            s.rows[id].failureCount + Holders(s.workers, id) <= c.threshold
  {
    InitInv(c);
    ExclusiveCap(c, Init(c), run);
    RunBudget(c, Init(c), run, 1);
  }

  /** One relay, or relays that finish within the lease, never push failure_count above the threshold. */
  lemma ThresholdRespected(c: Config, run: seq<Action>, id: EventId)
    requires ValidConfig(c) && ValidRun(c, Init(c), run)
    requires c.workers == 1 || TimelyRun(c, Init(c), run)
    requires id in Exec(c, Init(c), run).rows
    ensures Exec(c, Init(c), run).rows[id].failureCount <= c.threshold
  {
    InitInv(c);
    if c.workers == 1 {
      OneRelayIsExclusive(c, Init(c), run);
    } else {
      InitExclusive(c);
      TimelyIsExclusive(c, Init(c), run);
    }
    ExclusiveFailureBound(c, run, id);
  }

  // -------------------------------------------------------------- stuck logs

  function StuckCount(logs: seq<LogRecord>, id: EventId): nat {
    if logs == [] then 0
    else StuckCount(logs[..|logs| - 1], id)
         + (var e := logs[|logs| - 1]; if e.Stuck? && e.eventId == id then 1 else 0)
  }

  lemma StuckAppend(logs: seq<LogRecord>, e: LogRecord, id: EventId)
    ensures StuckCount(logs + [e], id) == StuckCount(logs, id) + (if e.Stuck? && e.eventId == id then 1 else 0)
  {
    assert (logs + [e])[..|logs|] == logs;
  }

  /** Between the stuck log and the write that makes the row reach the threshold. */
  ghost predicate MidRecord(c: Config, s: State, id: EventId) {
    exists w :: 0 <= w < |s.workers| && RecordsNext(c, s, s.workers[w], id)
  }

  predicate RecordsNext(c: Config, s: State, x: Worker, id: EventId) {
    && x.Working? && x.batch != [] && x.phase.ToRecord? && x.batch[0].eventId == id
    && id in s.rows && s.rows[id].failureCount + 1 >= c.threshold
  }

  /** A held claim carries the row's current failure count, which is below the threshold. */
  ghost predicate CountsFresh(c: Config, s: State, x: Worker) {
    x.Working? ==>
      forall k | 0 <= k < |x.batch| ::
        && x.batch[k].eventId in s.rows
        && x.batch[k].failureCount == s.rows[x.batch[k].eventId].failureCount < c.threshold
  }

  ghost predicate AllFresh(c: Config, s: State) {
    forall w | 0 <= w < |s.workers| :: CountsFresh(c, s, s.workers[w])
  }

  /** The stuck failure that was just logged is not recorded: the write fails, or the relay stops before it. */
  predicate LosesRecord(c: Config, s: State, a: Action, id: EventId) {
    && a.OfWorker? && a.worker < |s.workers| && (a.wop.RecordFailed? || a.wop.Crash?)
    && RecordsNext(c, s, s.workers[a.worker], id)
  }

  function LostRecords(c: Config, s: State, run: seq<Action>, id: EventId): nat
    requires ValidRun(c, s, run)
    decreases |run|
  {
    if run == [] then 0
    else (if LosesRecord(c, s, run[0], id) then 1 else 0) + LostRecords(c, Step(c, s, run[0]), run[1..], id)
  }

  /** One stuck log for reaching the threshold, one more for each that was never recorded. */
  ghost predicate StuckRight(c: Config, s: State, id: EventId, lost: nat) {
    if id in s.rows
    then StuckCount(s.logs, id) == lost + (if s.rows[id].failureCount >= c.threshold || MidRecord(c, s, id) then 1 else 0)
    else StuckCount(s.logs, id) == 0 && lost == 0
  }

  /** The failure is written whenever it was logged: no lost write, no crash in between. */
  predicate RecordsWhatItLogs(s: State, a: Action) {
    a.OfWorker? && a.worker < |s.workers| ==>
      && !a.wop.RecordFailed?
      && !(a.wop.Crash? && s.workers[a.worker].Working? && s.workers[a.worker].phase.ToRecord?)
  }

  ghost predicate RecordingRun(c: Config, s: State, run: seq<Action>)
    requires ValidRun(c, s, run)
    decreases |run|
  {
    run != [] ==> RecordsWhatItLogs(s, run[0]) && RecordingRun(c, Step(c, s, run[0]), run[1..])
  }

  /** With exclusive claims nobody else's copy of the failure count goes stale. */
  lemma WorkerKeepsFresh(c: Config, s: State, w: nat, op: WorkerOp)
    requires WorkerEnabled(c, s, w, op) && Inv(c, s) && Exclusive(s) && AllFresh(c, s)
    ensures AllFresh(c, WorkerStep(c, s, w, op))
  {
    var s' := WorkerStep(c, s, w, op);
    WorkerRows(c, s, w, op);
    forall v | 0 <= v < |s.workers|
      ensures CountsFresh(c, s', s'.workers[v])
    {
      if v == w {
        ActorFresh(c, s, w, op);
      } else if s.workers[v].Working? {
        forall k | 0 <= k < |s.workers[v].batch|
          ensures var ev := s.workers[v].batch[k];
                  ev.eventId in s'.rows && ev.failureCount == s'.rows[ev.eventId].failureCount < c.threshold
        {
          assert CountsFresh(c, s, s.workers[v]);
          NotShared(c, s, v, k, w, op);
          FailureEffect(c, s, w, op, s.workers[v].batch[k].eventId);
        }
      }
    }
  }

  lemma NotShared(c: Config, s: State, v: nat, k: nat, w: nat, op: WorkerOp)
    requires WorkerEnabled(c, s, w, op) && WorkersOk(c, s) && Exclusive(s) && v < |s.workers| && v != w
    requires s.workers[v].Working? && k < |s.workers[v].batch|
    ensures Records1(op) ==> s.workers[w].batch[0].eventId != s.workers[v].batch[k].eventId
  {
    var id := s.workers[v].batch[k].eventId;
    if Records1(op) && s.workers[w].batch[0].eventId == id {
      assert id in Held(s.workers[v]) && id in Held(s.workers[w]);
      TwoHolders(s.workers, if v < w then v else w, if v < w then w else v, id);
    }
  }

  lemma ActorFresh(c: Config, s: State, w: nat, op: WorkerOp)
    requires WorkerEnabled(c, s, w, op) && Inv(c, s) && CountsFresh(c, s, s.workers[w])
    ensures CountsFresh(c, WorkerStep(c, s, w, op), WorkerStep(c, s, w, op).workers[w])
  {
    var x := s.workers[w];
    var s' := WorkerStep(c, s, w, op);
    assert WorkerOk(c, s, x);
    if x.Working? {
      assert forall k | 1 <= k < |x.batch| :: x.batch[k].eventId != x.batch[0].eventId;
      forall k | 0 <= k < |x.batch| && (Records1(op) ==> k > 0)
        ensures x.batch[k].eventId in s'.rows
        ensures x.batch[k].failureCount == s'.rows[x.batch[k].eventId].failureCount < c.threshold
      {
        FailureEffect(c, s, w, op, x.batch[k].eventId);
      }
      assert forall k | 0 <= k < |x.batch[1..]| :: x.batch[1..][k] == x.batch[k + 1];
    } else if op.ClaimCommit? {
      forall k | 0 <= k < |op.order|
        ensures s.rows[op.order[k]].failureCount < c.threshold
      {
        assert op.order[k] in x.ids;
      }
    }
  }

  /** Another worker is mid-record after the action exactly when it was before. */
  lemma OthersMidRecord(c: Config, s: State, w: nat, op: WorkerOp, v: nat, id: EventId)
    requires WorkerEnabled(c, s, w, op) && Inv(c, s) && Exclusive(s) && v < |s.workers| && v != w && id in s.rows
    ensures RecordsNext(c, WorkerStep(c, s, w, op), s.workers[v], id) <==> RecordsNext(c, s, s.workers[v], id)
  {
    WorkerRows(c, s, w, op);
    var y := s.workers[v];
    if y.Working? && y.batch != [] && y.batch[0].eventId == id {
      NotShared(c, s, v, 0, w, op);
      FailureEffect(c, s, w, op, id);
    }
  }

  /** No second worker is about to record a row that this one has at its head. */
  lemma SoleRecorder(c: Config, s: State, w: nat, id: EventId)
    requires WorkersOk(c, s) && Exclusive(s) && w < |s.workers| && id in Held(s.workers[w])
    ensures MidRecord(c, s, id) <==> RecordsNext(c, s, s.workers[w], id)
    ensures forall v | 0 <= v < |s.workers| && v != w :: !RecordsNext(c, s, s.workers[v], id)
  {
    forall v | 0 <= v < |s.workers| && v != w
      ensures !RecordsNext(c, s, s.workers[v], id)
    {
      if RecordsNext(c, s, s.workers[v], id) {
        assert id in Held(s.workers[v]);
        TwoHolders(s.workers, if v < w then v else w, if v < w then w else v, id);
      }
    }
  }

  lemma MidRecordEffect(c: Config, s: State, w: nat, op: WorkerOp, id: EventId)
    requires WorkerEnabled(c, s, w, op) && Inv(c, s) && Exclusive(s) && id in s.rows
    ensures var s' := WorkerStep(c, s, w, op);
            MidRecord(c, s', id) <==>
              RecordsNext(c, s', s'.workers[w], id)
              || exists v :: 0 <= v < |s.workers| && v != w && RecordsNext(c, s, s.workers[v], id)
  {
    var s' := WorkerStep(c, s, w, op);
    forall v | 0 <= v < |s.workers| && v != w
      ensures RecordsNext(c, s', s'.workers[v], id) <==> RecordsNext(c, s, s.workers[v], id)
    {
      assert s'.workers[v] == s.workers[v];
      OthersMidRecord(c, s, w, op, v, id);
    }
  }

  /** The log entry a worker action appends, if any, as far as stuck entries go. */
  lemma LogEffect(c: Config, s: State, w: nat, op: WorkerOp, id: EventId)
    requires WorkerEnabled(c, s, w, op) && WorkersOk(c, s)
    ensures StuckCount(WorkerStep(c, s, w, op).logs, id) == StuckCount(s.logs, id)
              + (if op.LogOutcome? && s.workers[w].batch[0].eventId == id
                    && s.workers[w].batch[0].failureCount + 1 >= c.threshold then 1 else 0)
  {
    assert WorkerOk(c, s, s.workers[w]);
    var s' := WorkerStep(c, s, w, op);
    if |s'.logs| > |s.logs| {
      StuckAppend(s.logs, s'.logs[|s.logs|], id);
      assert s'.logs == s.logs + [s'.logs[|s.logs|]];
    }
  }

  /** Only writing the log brings a worker to the point of recording. */
  lemma ActorRecordsNext(c: Config, s: State, w: nat, op: WorkerOp, id: EventId)
    requires WorkerEnabled(c, s, w, op) && WorkersOk(c, s) && id in s.rows
    ensures RecordsNext(c, WorkerStep(c, s, w, op), WorkerStep(c, s, w, op).workers[w], id) <==>
              op.LogOutcome? && s.workers[w].batch[0].eventId == id && s.rows[id].failureCount + 1 >= c.threshold
  {
  }

  ghost predicate HeadOf(x: Worker, id: EventId) {
    x.Working? && x.batch != [] && x.batch[0].eventId == id
  }

  lemma BystanderStuck(c: Config, s: State, w: nat, op: WorkerOp, id: EventId, lost: nat)
    requires WorkerEnabled(c, s, w, op) && Inv(c, s) && Exclusive(s) && id in s.rows
    requires StuckRight(c, s, id, lost) && !HeadOf(s.workers[w], id)
    ensures !LosesRecord(c, s, OfWorker(w, op), id)
    ensures StuckRight(c, WorkerStep(c, s, w, op), id, lost)
  {
    LogEffect(c, s, w, op, id);
    FailureEffect(c, s, w, op, id);
    MidRecordEffect(c, s, w, op, id);
    ActorRecordsNext(c, s, w, op, id);
    assert !RecordsNext(c, s, s.workers[w], id);
  }

  lemma HeadStuck(c: Config, s: State, w: nat, op: WorkerOp, id: EventId, lost: nat)
    requires WorkerEnabled(c, s, w, op) && Inv(c, s) && Exclusive(s) && id in s.rows
    requires StuckRight(c, s, id, lost) && HeadOf(s.workers[w], id) && CountsFresh(c, s, s.workers[w])
    ensures StuckRight(c, WorkerStep(c, s, w, op), id, lost + (if LosesRecord(c, s, OfWorker(w, op), id) then 1 else 0))
  {
    LogEffect(c, s, w, op, id);
    FailureEffect(c, s, w, op, id);
    MidRecordEffect(c, s, w, op, id);
    ActorRecordsNext(c, s, w, op, id);
    assert s.workers[w].batch[0].failureCount == s.rows[id].failureCount < c.threshold;
    assert id in Held(s.workers[w]);
    SoleRecorder(c, s, w, id);
    var s' := WorkerStep(c, s, w, op);
    assert MidRecord(c, s', id) <==> RecordsNext(c, s', s'.workers[w], id);
    assert s'.rows[id].failureCount == s.rows[id].failureCount + (if Records1(op) then 1 else 0);
  }

  /** A row that does not exist yet is in nobody's hands. */
  lemma AbsentStuck(c: Config, s: State, w: nat, op: WorkerOp, id: EventId)
    requires WorkerEnabled(c, s, w, op) && WorkersOk(c, s) && id !in s.rows && StuckCount(s.logs, id) == 0
    ensures !LosesRecord(c, s, OfWorker(w, op), id)
    ensures id !in WorkerStep(c, s, w, op).rows && StuckCount(WorkerStep(c, s, w, op).logs, id) == 0
  {
    LogEffect(c, s, w, op, id);
    WorkerKeepsKeys(c, s, w, op);
    assert WorkerOk(c, s, s.workers[w]);
    assert s.workers[w].Working? ==> ClaimedOk(s.rows, s.workers[w].at, s.workers[w].batch[0]);
  }

  lemma WorkerKeepsStuck(c: Config, s: State, w: nat, op: WorkerOp, id: EventId, lost: nat)
    requires WorkerEnabled(c, s, w, op) && Inv(c, s) && Exclusive(s) && AllFresh(c, s) && StuckRight(c, s, id, lost)
    ensures StuckRight(c, WorkerStep(c, s, w, op), id, lost + (if LosesRecord(c, s, OfWorker(w, op), id) then 1 else 0))
  {
    if id !in s.rows {
      AbsentStuck(c, s, w, op, id);
    } else {
      WorkerKeepsKeys(c, s, w, op);
      if HeadOf(s.workers[w], id) {
        HeadStuck(c, s, w, op, id, lost);
      } else {
        BystanderStuck(c, s, w, op, id, lost);
      }
    }
  }

  /** Only rows, workers and logs matter, and a commit adds rows that nobody holds. */
  lemma MoreRowsFresh(c: Config, s: State, s': State)
    requires AllFresh(c, s) && s'.workers == s.workers
    requires forall id | id in s.rows :: id in s'.rows && s'.rows[id] == s.rows[id]
    ensures AllFresh(c, s')
  {
    forall w | 0 <= w < |s'.workers|
      ensures CountsFresh(c, s', s'.workers[w])
    {
      assert CountsFresh(c, s, s.workers[w]);
    }
  }

  lemma MoreRowsStuck(c: Config, s: State, s': State, id: EventId, lost: nat)
    requires ValidConfig(c) && AllFresh(c, s) && StuckRight(c, s, id, lost)
    requires s'.workers == s.workers && s'.logs == s.logs
    requires forall i | i in s.rows :: i in s'.rows && s'.rows[i] == s.rows[i]
    requires forall i | i in s'.rows && i !in s.rows :: s'.rows[i].failureCount == 0
    ensures StuckRight(c, s', id, lost)
  {
    if id in s.rows {
      assert forall w | 0 <= w < |s.workers| ::
          RecordsNext(c, s', s.workers[w], id) <==> RecordsNext(c, s, s.workers[w], id);
    } else {
      forall w | 0 <= w < |s.workers|
        ensures !RecordsNext(c, s', s.workers[w], id)
      {
        assert CountsFresh(c, s, s.workers[w]);
      }
    }
  }

  /** Everything but a worker's action only adds rows, and adds them with no failure. */
  lemma OthersAddRows(c: Config, s: State, a: Action)
    requires Enabled(c, s, a) && CallsOk(s) && !a.OfWorker?
    ensures var s' := Step(c, s, a);
            && s'.workers == s.workers && s'.logs == s.logs
            && (forall id | id in s.rows :: id in s'.rows && s'.rows[id] == s.rows[id])
            && (forall id | id in s'.rows && id !in s.rows :: s'.rows[id].failureCount == 0)
  {
    if a.OfCall? {
      if a.cop.Commit? {
        CommitRows(c, s, a.call);
        var s', call := Step(c, s, a), s.calls[a.call];
        forall id | id in s'.rows && id !in s.rows
          ensures s'.rows[id].failureCount == 0
        {
          var i :| 0 <= i < |call.events| && call.events[i].eventId == id;
          assert s'.rows[id] == NewRow(call.events[i], call.begun.value);
        }
      } else {
        CallFrame(c, s, a.call, a.cop);
      }
    }
  }

  lemma StepKeepsStuck(c: Config, s: State, a: Action, id: EventId, lost: nat)
    requires ValidConfig(c) && Enabled(c, s, a) && Inv(c, s) && Exclusive(s) && AllFresh(c, s)
    requires StuckRight(c, s, id, lost)
    ensures AllFresh(c, Step(c, s, a))
    ensures StuckRight(c, Step(c, s, a), id, lost + (if LosesRecord(c, s, a, id) then 1 else 0))
  {
    if a.OfWorker? {
      WorkerKeepsFresh(c, s, a.worker, a.wop);
      WorkerKeepsStuck(c, s, a.worker, a.wop, id, lost);
    } else {
      OthersAddRows(c, s, a);
      MoreRowsFresh(c, s, Step(c, s, a));
      MoreRowsStuck(c, s, Step(c, s, a), id, lost);
    }
  }

  lemma {:induction false} RunKeepsStuck(c: Config, s: State, run: seq<Action>, id: EventId, lost: nat)
    requires ValidConfig(c) && ValidRun(c, s, run) && Inv(c, s) && AllFresh(c, s) && ExclusiveRun(c, s, run)
    requires StuckRight(c, s, id, lost)
    ensures StuckRight(c, Exec(c, s, run), id, lost + LostRecords(c, s, run, id))
    decreases |run|
  {
    if run != [] {
      StepKeepsStuck(c, s, run[0], id, lost);
      StepInv(c, s, run[0]);
      RunKeepsStuck(c, Step(c, s, run[0]), run[1..], id, lost + (if LosesRecord(c, s, run[0], id) then 1 else 0));
    }
  }

  /**
   * With exclusive claims a row has one stuck log if it has reached the
   * threshold, and one more for each stuck failure that was logged and never
   * recorded; the only gap is between writing the log and writing the count.
   * So the log is exact if and only if no such record was lost.
   */
  lemma StuckLogCount(c: Config, run: seq<Action>, id: EventId)
    requires ValidConfig(c) && ValidRun(c, Init(c), run) && ExclusiveRun(c, Init(c), run)
    requires id in Exec(c, Init(c), run).rows && !MidRecord(c, Exec(c, Init(c), run), id)
    ensures var s := Exec(c, Init(c), run);
            var once := if s.rows[id].failureCount >= c.threshold then 1 else 0;
            && StuckCount(s.logs, id) == once + LostRecords(c, Init(c), run, id)
            && (StuckCount(s.logs, id) == once <==> LostRecords(c, Init(c), run, id) == 0)
  {
    InitInv(c);
    RunKeepsStuck(c, Init(c), run, id, 0);
  }

  /** A run that records every failure it logs loses no record. */
  lemma {:induction false} RecordingLosesNothing(c: Config, s: State, run: seq<Action>, id: EventId)
    requires ValidRun(c, s, run) && RecordingRun(c, s, run)
    ensures LostRecords(c, s, run, id) == 0
    decreases |run|
  {
    if run != [] {
      RecordingLosesNothing(c, Step(c, s, run[0]), run[1..], id);
    }
  }

  /** So with exclusive claims and every logged failure recorded the stuck log is exact. */
  lemma StuckLogExact(c: Config, run: seq<Action>, id: EventId)
    requires ValidConfig(c) && ValidRun(c, Init(c), run)
    requires ExclusiveRun(c, Init(c), run) && RecordingRun(c, Init(c), run)
    requires id in Exec(c, Init(c), run).rows && !MidRecord(c, Exec(c, Init(c), run), id)
    ensures var s := Exec(c, Init(c), run);
            StuckCount(s.logs, id) == if s.rows[id].failureCount >= c.threshold then 1 else 0
  {
    StuckLogCount(c, run, id);
    RecordingLosesNothing(c, Init(c), run, id);
  }
}
