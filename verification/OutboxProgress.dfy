/** Bounded waiting and termination of the relay, by a potential over the live rows. */
module OutboxProgress {
  import opened OutboxModel
  import opened OutboxInvariant
  import opened OutboxLease
  import opened OutboxFailures
  import opened OutboxRefinement
  import opened Sums

  /** Attempts the row may still use, a held claim counted as used. */
  ghost function Credit(c: Config, s: State, j: EventId): nat {
    if j in s.rows && Live(c, s.rows[j]) && s.rows[j].failureCount + Holders(s.workers, j) <= c.threshold
    then c.threshold - s.rows[j].failureCount - Holders(s.workers, j)
    else 0
  }

  ghost function Potential(c: Config, s: State, rows: set<EventId>): nat {
    Sum(rows, j => Credit(c, s, j))
  }

  /** Claims the action gives up without recording an outcome. */
  ghost function Dropped(s: State, a: Action): set<EventId> {
    if a.OfWorker? && a.worker < |s.workers| then
      var x := s.workers[a.worker];
      match a.wop
      case Crash => Held(x)
      case ClaimRollback => Held(x)
      case ClaimLost(_) => Held(x)
      case MarkFailed => if x.Working? && x.batch != [] then {x.batch[0].eventId} else {}
      case RecordFailed => if x.Working? && x.batch != [] then {x.batch[0].eventId} else {}
      case _ => {}
    else {}
  }

  ghost function Taken(a: Action): set<EventId> {
    if a.OfWorker? && a.wop.ClaimLock? then a.wop.ids else {}
  }

  // --------------------------------------------------- one action, one row

  lemma LockCredit(c: Config, s: State, w: nat, ids: set<EventId>, j: EventId)
    requires WorkerEnabled(c, s, w, ClaimLock(ids)) && WorkersOk(c, s) && j in s.rows
    requires Exclusive(WorkerStep(c, s, w, ClaimLock(ids)))
    ensures Credit(c, WorkerStep(c, s, w, ClaimLock(ids)), j) + (if j in ids then 1 else 0) == Credit(c, s, j)
  {
    var s' := WorkerStep(c, s, w, ClaimLock(ids));
    ActorHeld(c, s, w, ClaimLock(ids));
    HoldersUpdate(s.workers, w, s'.workers[w], j);
    assert Holders(s'.workers, j) <= 1;
  }

  lemma WorkerCredit(c: Config, s: State, w: nat, op: WorkerOp, j: EventId)
    requires WorkerEnabled(c, s, w, op) && WorkersOk(c, s) && j in s.rows && !op.ClaimLock?
    requires s.rows[j].failureCount + Holders(s.workers, j) <= c.threshold
    ensures Credit(c, WorkerStep(c, s, w, op), j) <=
              Credit(c, s, j) + (if j in Dropped(s, OfWorker(w, op)) then 1 else 0)
  {
    var s' := WorkerStep(c, s, w, op);
    WorkerPublishes(c, s, w, op, j);
    FailureEffect(c, s, w, op, j);
    HoldersEffect(c, s, w, op, j);
  }

  /** A worker stops holding a row by resolving its head or by dropping the claim. */
  lemma HoldersEffect(c: Config, s: State, w: nat, op: WorkerOp, j: EventId)
    requires WorkerEnabled(c, s, w, op) && WorkersOk(c, s) && !op.ClaimLock?
    ensures var lost := Holders(s.workers, j) - Holders(WorkerStep(c, s, w, op).workers, j);
            && 0 <= lost <= 1
            && (lost == 1 <==>
                  || j in Dropped(s, OfWorker(w, op))
                  || ((Records1(op) || op.MarkOk? || op.MarkLost?) && s.workers[w].batch[0].eventId == j))
  {
    ActorHeld(c, s, w, op);
    HoldersUpdate(s.workers, w, WorkerStep(c, s, w, op).workers[w], j);
    if s.workers[w].Working? {
      assert s.workers[w].batch[0].eventId in Held(s.workers[w]);
    }
  }

  lemma StepCredit(c: Config, s: State, a: Action, j: EventId)
    requires Enabled(c, s, a) && WorkersOk(c, s) && CallsOk(s) && j in s.rows
    requires WithinBudget(c, s, 1) && Exclusive(Step(c, s, a))
    ensures Credit(c, Step(c, s, a), j) + (if j in Taken(a) then 1 else 0) <=
              Credit(c, s, j) + (if j in Dropped(s, a) then 1 else 0)
  {
    match a
    case OfWorker(w, op) =>
      if op.ClaimLock? {
        LockCredit(c, s, w, op.ids, j);
      } else {
        WorkerCredit(c, s, w, op, j);
      }
    case OfCall(k, op) =>
      if op.Commit? {
        CommitRows(c, s, k);
      } else {
        CallFrame(c, s, k, op);
      }
    case Tick(_) =>
    case AccountConsumes(_) =>
  }

  /** Claiming spends potential; only dropping claims gives any back. */
  lemma StepPotential(c: Config, s: State, a: Action, rows: set<EventId>)
    requires Enabled(c, s, a) && Inv(c, s) && rows <= s.rows.Keys
    requires WithinBudget(c, s, 1) && Exclusive(Step(c, s, a))
    ensures Potential(c, Step(c, s, a), rows) + |Taken(a) * rows| <= Potential(c, s, rows) + |Dropped(s, a)|
  {
    var s' := Step(c, s, a);
    forall j | j in rows
      ensures Credit(c, s', j) + (if j in Taken(a) * rows then 1 else 0) <=
                Credit(c, s, j) + (if j in Dropped(s, a) then 1 else 0)
    {
      StepCredit(c, s, a, j);
    }
    SumCompare(rows, (j: EventId) => Credit(c, s', j), (j: EventId) => Credit(c, s, j), Taken(a) * rows, Dropped(s, a));
  }

  lemma PotentialBound(c: Config, s: State, rows: set<EventId>)
    ensures Potential(c, s, rows) <= |rows| * c.threshold
  {
    SumBound(rows, (j: EventId) => Credit(c, s, j), c.threshold);
  }

  // --------------------------------------------------------- bounded waiting

  /** The rows that sort before x, or tie with it. */
  ghost function Ahead(s: State, x: EventId): set<EventId>
    requires x in s.rows
  {
    set j | j in s.rows && j != x && s.rows[j].createdAt <= s.rows[x].createdAt
  }

  /** x could be claimed by this claim statement and is left out. */
  predicate PassedOver(c: Config, s: State, a: Action, x: EventId) {
    a.OfWorker? && a.wop.ClaimLock? && x in Available(c, s) && x !in a.wop.ids
  }

  function TimesPassedOver(c: Config, s: State, run: seq<Action>, x: EventId): nat
    requires ValidRun(c, s, run)
    decreases |run|
  {
    if run == [] then 0
    else (if PassedOver(c, s, run[0], x) then 1 else 0) + TimesPassedOver(c, Step(c, s, run[0]), run[1..], x)
  }

  ghost function ClaimsDropped(c: Config, s: State, run: seq<Action>): nat
    requires ValidRun(c, s, run)
    decreases |run|
  {
    if run == [] then 0 else |Dropped(s, run[0])| + ClaimsDropped(c, Step(c, s, run[0]), run[1..])
  }

  /** Every row committed during the run sorts after x. */
  ghost predicate LaterRowsSortAfter(c: Config, s: State, run: seq<Action>, x: EventId)
    requires ValidRun(c, s, run)
    decreases |run|
  {
    x in s.rows &&
    (run != [] ==>
       var s' := Step(c, s, run[0]);
       && (forall id | id in s'.rows && id !in s.rows :: s.rows[x].createdAt < s'.rows[id].createdAt)
       && LaterRowsSortAfter(c, s', run[1..], x))
  }

  lemma SameAhead(s: State, s': State, x: EventId)
    requires x in s.rows
    requires forall id | id in s.rows :: id in s'.rows && s'.rows[id].createdAt == s.rows[id].createdAt
    requires forall id | id in s'.rows && id !in s.rows :: s.rows[x].createdAt < s'.rows[id].createdAt
    ensures Ahead(s', x) == Ahead(s, x)
  {
  }

  lemma AheadStays(c: Config, s: State, a: Action, x: EventId)
    requires Enabled(c, s, a) && RowsOk(s) && WorkersOk(c, s) && CallsOk(s) && x in s.rows
    requires forall id | id in Step(c, s, a).rows && id !in s.rows ::
               s.rows[x].createdAt < Step(c, s, a).rows[id].createdAt
    ensures x in Step(c, s, a).rows && Ahead(Step(c, s, a), x) == Ahead(s, x)
  {
    KeepsCreation(c, s, a);
    SameAhead(s, Step(c, s, a), x);
  }

  lemma KeepsCreation(c: Config, s: State, a: Action)
    requires Enabled(c, s, a) && RowsOk(s) && WorkersOk(c, s) && CallsOk(s)
    ensures forall id | id in s.rows :: id in Step(c, s, a).rows && Step(c, s, a).rows[id].createdAt == s.rows[id].createdAt
  {
    match a
    case OfWorker(w, op) => WorkerRows(c, s, w, op);
    case OfCall(k, op) =>
      if op.Commit? {
        CommitRows(c, s, k);
      } else {
        CallFrame(c, s, k, op);
      }
    case Tick(_) =>
    case AccountConsumes(_) =>
  }

  /** Being passed over means a full batch of rows ahead was taken. */
  lemma PassedOverTakesAhead(c: Config, s: State, a: Action, x: EventId)
    requires Enabled(c, s, a) && PassedOver(c, s, a, x)
    ensures x in s.rows && Taken(a) <= Ahead(s, x) && |Taken(a)| == c.batchSize
  {
  }

  lemma WaitingStep(c: Config, s: State, a: Action, x: EventId)
    requires Enabled(c, s, a) && Inv(c, s) && WithinBudget(c, s, 1) && Exclusive(Step(c, s, a)) && x in s.rows
    ensures (if PassedOver(c, s, a, x) then c.batchSize else 0) + Potential(c, Step(c, s, a), Ahead(s, x))
              <= Potential(c, s, Ahead(s, x)) + |Dropped(s, a)|
  {
    StepPotential(c, s, a, Ahead(s, x));
    if PassedOver(c, s, a, x) {
      PassedOverTakesAhead(c, s, a, x);
      assert Taken(a) * Ahead(s, x) == Taken(a);
    }
  }

  lemma {:induction false} WaitingPotential(c: Config, s: State, run: seq<Action>, x: EventId)
    requires ValidConfig(c) && ValidRun(c, s, run) && Inv(c, s) && WithinBudget(c, s, 1)
    requires ExclusiveRun(c, s, run) && LaterRowsSortAfter(c, s, run, x)
    ensures c.batchSize * TimesPassedOver(c, s, run, x) <= Potential(c, s, Ahead(s, x)) + ClaimsDropped(c, s, run)
    decreases |run|
  {
    if run != [] {
      var a, s' := run[0], Step(c, s, run[0]);
      assert ExclusiveRun(c, s', run[1..]);
      StepInv(c, s, a);
      StepBudget(c, s, a, 1);
      AheadStays(c, s, a, x);
      WaitingPotential(c, s', run[1..], x);
      WaitingStep(c, s, a, x);
      PayOne(c.batchSize, PassedOver(c, s, a, x), TimesPassedOver(c, s', run[1..], x), TimesPassedOver(c, s, run, x),
             Potential(c, s, Ahead(s, x)) + |Dropped(s, a)|, Potential(c, s', Ahead(s, x)), ClaimsDropped(c, s', run[1..]));
    }
  }

  /**
   * Starvation bound. While claims are exclusive, a row with r rows ahead is
   * passed over at most floor((r*T + dropped) / B) times, where dropped counts
   * the claims lost to crashes, rolled-back claims and failed writes.
   */
  lemma StarvationBound(c: Config, before: seq<Action>, run: seq<Action>, x: EventId)
    requires ValidConfig(c) && ValidRun(c, Init(c), before) && ExclusiveRun(c, Init(c), before)
    requires ValidRun(c, Exec(c, Init(c), before), run)
    requires ExclusiveRun(c, Exec(c, Init(c), before), run)
    requires LaterRowsSortAfter(c, Exec(c, Init(c), before), run, x)
    ensures var s := Exec(c, Init(c), before);
            TimesPassedOver(c, s, run, x) <=
              (|Ahead(s, x)| * c.threshold + ClaimsDropped(c, s, run)) / c.batchSize
  {
    var s := Exec(c, Init(c), before);
    InitInv(c);
    ReachableInv(c, before);
    ExclusiveCap(c, Init(c), before);
    RunBudget(c, Init(c), before, 1);
    WaitingPotential(c, s, run, x);
    PotentialBound(c, s, Ahead(s, x));
    DivideBound(c.batchSize, TimesPassedOver(c, s, run, x), |Ahead(s, x)| * c.threshold + ClaimsDropped(c, s, run));
  }

  /** One relay, no lost claim: passed over in at most floor(r*T/B) rounds. */
  lemma OneRelayStarvationBound(c: Config, before: seq<Action>, run: seq<Action>, x: EventId)
    requires ValidConfig(c) && c.workers == 1
    requires ValidRun(c, Init(c), before) && ValidRun(c, Exec(c, Init(c), before), run)
    requires LaterRowsSortAfter(c, Exec(c, Init(c), before), run, x)
    requires ClaimsDropped(c, Exec(c, Init(c), before), run) == 0
    ensures var s := Exec(c, Init(c), before);
            TimesPassedOver(c, s, run, x) <= |Ahead(s, x)| * c.threshold / c.batchSize
  {
    InitInv(c);
    ReachableInv(c, before);
    OneRelayIsExclusive(c, Init(c), before);
    OneRelayIsExclusive(c, Exec(c, Init(c), before), run);
    StarvationBound(c, before, run, x);
  }

  // ------------------------------------------------------------------ drain

  /** No insert is committed, no claim is dropped, and every claim finds all live leases expired. */
  ghost predicate DrainStep(c: Config, s: State, a: Action) {
    && !(a.OfCall? && a.cop.Commit?)
    && Dropped(s, a) == {}
    && (a.OfWorker? && a.wop.ClaimLock? ==>
          forall id | id in s.rows && Live(c, s.rows[id]) :: Eligible(c, s.rows[id], s.clock))
  }

  ghost predicate DrainRun(c: Config, s: State, run: seq<Action>)
    requires ValidRun(c, s, run)
    decreases |run|
  {
    run != [] ==> DrainStep(c, s, run[0]) && DrainRun(c, Step(c, s, run[0]), run[1..])
  }

  predicate IsRound(a: Action) {
    a.OfWorker? && a.wop.ClaimLock?
  }

  /** Rounds that claim a full batch, and rounds that claim less. */
  function FullRounds(c: Config, run: seq<Action>): nat {
    if run == [] then 0
    else (if IsRound(run[0]) && |run[0].wop.ids| == c.batchSize then 1 else 0) + FullRounds(c, run[1..])
  }

  function PartialRounds(c: Config, run: seq<Action>): nat {
    if run == [] then 0
    else (if IsRound(run[0]) && |run[0].wop.ids| != c.batchSize then 1 else 0) + PartialRounds(c, run[1..])
  }

  function Rounds(run: seq<Action>): nat {
    if run == [] then 0 else (if IsRound(run[0]) then 1 else 0) + Rounds(run[1..])
  }

  lemma {:induction false} RoundsSplit(c: Config, run: seq<Action>)
    ensures Rounds(run) == FullRounds(c, run) + PartialRounds(c, run)
  {
    if run != [] {
      RoundsSplit(c, run[1..]);
    }
  }

  /** Attempts used or under way. */
  ghost function Used(s: State, j: EventId): nat
    requires j in s.rows
  {
    s.rows[j].failureCount + Holders(s.workers, j)
  }

  lemma WorkerUse(c: Config, s: State, w: nat, op: WorkerOp, j: EventId)
    requires c.workers == 1 && WorkerEnabled(c, s, w, op) && WorkersOk(c, s) && DrainStep(c, s, OfWorker(w, op))
    requires j in s.rows && j in WorkerStep(c, s, w, op).rows && Live(c, WorkerStep(c, s, w, op).rows[j])
    ensures Live(c, s.rows[j])
    ensures Used(s, j) + (if op.ClaimLock? && |op.ids| != c.batchSize then 1 else 0) <= Used(WorkerStep(c, s, w, op), j)
  {
    WorkerPublishes(c, s, w, op, j);
    FailureEffect(c, s, w, op, j);
    if op.ClaimLock? {
      assert !Locked(s, j);
      assert j in Available(c, s);
      ActorHeld(c, s, w, op);
      HoldersUpdate(s.workers, w, WorkerStep(c, s, w, op).workers[w], j);
    } else {
      HoldersEffect(c, s, w, op, j);
    }
  }

  lemma RoundSpends(c: Config, s: State, a: Action)
    requires Enabled(c, s, a) && Inv(c, s) && DrainStep(c, s, a) && WithinBudget(c, s, 1) && Exclusive(Step(c, s, a))
    ensures (if IsRound(a) && |a.wop.ids| == c.batchSize then c.batchSize else 0) + Potential(c, Step(c, s, a), s.rows.Keys)
              <= Potential(c, s, s.rows.Keys)
  {
    StepPotential(c, s, a, s.rows.Keys);
    if IsRound(a) {
      assert Taken(a) * s.rows.Keys == Taken(a);
    }
  }

  lemma DrainKeepsKeys(c: Config, s: State, a: Action)
    requires Enabled(c, s, a) && Inv(c, s) && DrainStep(c, s, a)
    ensures Step(c, s, a).rows.Keys == s.rows.Keys
  {
    if a.OfWorker? {
      WorkerRows(c, s, a.worker, a.wop);
    }
  }

  lemma {:induction false} DrainKeys(c: Config, s: State, run: seq<Action>)
    requires ValidRun(c, s, run) && Inv(c, s) && DrainRun(c, s, run)
    ensures Exec(c, s, run).rows.Keys == s.rows.Keys
    decreases |run|
  {
    if run != [] {
      StepInv(c, s, run[0]);
      DrainKeepsKeys(c, s, run[0]);
      DrainKeys(c, Step(c, s, run[0]), run[1..]);
    }
  }

  /** Every full round spends a batch worth of potential. */
  lemma {:induction false} FullRoundsBounded(c: Config, s: State, run: seq<Action>)
    requires ValidConfig(c) && ValidRun(c, s, run) && Inv(c, s) && WithinBudget(c, s, 1)
    requires ExclusiveRun(c, s, run) && DrainRun(c, s, run)
    ensures c.batchSize * FullRounds(c, run) + Potential(c, Exec(c, s, run), s.rows.Keys) <= Potential(c, s, s.rows.Keys)
    decreases |run|
  {
    if run != [] {
      var a, s' := run[0], Step(c, s, run[0]);
      assert ExclusiveRun(c, s', run[1..]);
      StepInv(c, s, a);
      StepBudget(c, s, a, 1);
      RoundSpends(c, s, a);
      DrainKeepsKeys(c, s, a);
      FullRoundsBounded(c, s', run[1..]);
      PayOne(c.batchSize, IsRound(a) && |a.wop.ids| == c.batchSize, FullRounds(c, run[1..]), FullRounds(c, run),
             Potential(c, s, s.rows.Keys), Potential(c, s', s.rows.Keys), 0 - Potential(c, Exec(c, s, run), s.rows.Keys));
    }
  }

  /** A partial round takes every live row, so each row still live at the end used an attempt in it. */
  lemma {:induction false} PartialRoundsBounded(c: Config, s: State, run: seq<Action>, j: EventId)
    requires c.workers == 1 && ValidRun(c, s, run) && Inv(c, s) && DrainRun(c, s, run)
    requires j in s.rows && j in Exec(c, s, run).rows && Live(c, Exec(c, s, run).rows[j])
    ensures Live(c, s.rows[j]) && Used(s, j) + PartialRounds(c, run) <= Used(Exec(c, s, run), j)
    decreases |run|
  {
    if run != [] {
      var a := run[0];
      StepInv(c, s, a);
      DrainKeepsKeys(c, s, a);
      PartialRoundsBounded(c, Step(c, s, a), run[1..], j);
      if a.OfWorker? {
        WorkerUse(c, s, a.worker, a.wop, j);
      }
    }
  }

  predicate AllIdle(s: State) {
    forall w | 0 <= w < |s.workers| :: s.workers[w].Idle?
  }

  /** M: the attempts left over the live rows. */
  ghost function AttemptsLeft(c: Config, s: State): nat {
    Sum(s.rows.Keys, (j: EventId) => if j in s.rows && Live(c, s.rows[j]) then c.threshold - s.rows[j].failureCount else 0)
  }

  /**
   * Drain. With one relay, no inserts, no dropped claim and leases expired
   * between rounds, after floor(M/B) + T rounds every row is published or at
   * the threshold.
   */
  lemma DrainTerminates(c: Config, before: seq<Action>, run: seq<Action>)
    requires ValidConfig(c) && c.workers == 1
    requires ValidRun(c, Init(c), before) && ValidRun(c, Exec(c, Init(c), before), run)
    requires AllIdle(Exec(c, Init(c), before)) && AllIdle(Exec(c, Exec(c, Init(c), before), run))
    requires DrainRun(c, Exec(c, Init(c), before), run)
    requires Rounds(run) >= AttemptsLeft(c, Exec(c, Init(c), before)) / c.batchSize + c.threshold
    ensures var end := Exec(c, Exec(c, Init(c), before), run);
            forall j | j in end.rows :: end.rows[j].publishedAt.Some? || end.rows[j].failureCount >= c.threshold
  {
    var s := Exec(c, Init(c), before);
    var end := Exec(c, s, run);
    InitInv(c);
    ReachableInv(c, before);
    OneRelayIsExclusive(c, Init(c), before);
    ExclusiveCap(c, Init(c), before);
    RunBudget(c, Init(c), before, 1);
    OneRelayIsExclusive(c, s, run);
    DrainKeys(c, s, run);
    FullRoundsBounded(c, s, run);
    RoundsSplit(c, run);
    IdlePotential(c, s);
    forall j | j in end.rows
      ensures !Live(c, end.rows[j])
    {
      if Live(c, end.rows[j]) {
        PartialRoundsBounded(c, s, run, j);
        NobodyHolds(end, j);
        SumAtLeast(s.rows.Keys, (i: EventId) => Credit(c, end, i), j);
        DivideBound(c.batchSize, FullRounds(c, run), AttemptsLeft(c, s));
      }
    }
  }

  /** The broker accepts and confirms every publish. */
  predicate HealthyRun(run: seq<Action>) {
    forall i | 0 <= i < |run| ::
      run[i].OfWorker? ==> !run[i].wop.PublishRejected? && !run[i].wop.PublishUnknown?
  }

  ghost predicate NoFailurePending(s: State) {
    forall w | 0 <= w < |s.workers| && s.workers[w].Working? :: s.workers[w].phase.ToPublish? || s.workers[w].phase.ToMark?
  }

  lemma HealthyWorker(c: Config, s: State, w: nat, op: WorkerOp)
    requires WorkerEnabled(c, s, w, op) && NoFailurePending(s) && !op.PublishRejected? && !op.PublishUnknown?
    ensures NoFailurePending(WorkerStep(c, s, w, op)) && !Records1(op)
  {
    var s' := WorkerStep(c, s, w, op);
    forall v | 0 <= v < |s'.workers| && s'.workers[v].Working?
      ensures s'.workers[v].phase.ToPublish? || s'.workers[v].phase.ToMark?
    {
      if v != w {
        assert s'.workers[v] == s.workers[v];
      }
    }
  }

  lemma HealthyStep(c: Config, s: State, a: Action, j: EventId)
    requires Enabled(c, s, a) && WorkersOk(c, s) && CallsOk(s) && NoFailurePending(s) && j in s.rows
    requires a.OfWorker? ==> !a.wop.PublishRejected? && !a.wop.PublishUnknown?
    ensures NoFailurePending(Step(c, s, a))
    ensures j in Step(c, s, a).rows && Step(c, s, a).rows[j].failureCount == s.rows[j].failureCount
  {
    match a
    case OfWorker(w, op) =>
      HealthyWorker(c, s, w, op);
      FailureEffect(c, s, w, op, j);
    case OfCall(k, op) =>
      if op.Commit? {
        CommitRows(c, s, k);
      }
    case Tick(_) =>
    case AccountConsumes(_) =>
  }

  lemma {:induction false} HealthyKeepsCounts(c: Config, s: State, run: seq<Action>, j: EventId)
    requires ValidRun(c, s, run) && Inv(c, s) && HealthyRun(run) && NoFailurePending(s) && j in s.rows
    ensures j in Exec(c, s, run).rows && Exec(c, s, run).rows[j].failureCount == s.rows[j].failureCount
    decreases |run|
  {
    if run != [] {
      StepInv(c, s, run[0]);
      HealthyStep(c, s, run[0], j);
      HealthyKeepsCounts(c, Step(c, s, run[0]), run[1..], j);
    }
  }

  /** With a healthy broker the same number of rounds delivers every event that was still to be delivered. */
  lemma DrainDelivers(c: Config, before: seq<Action>, run: seq<Action>, j: EventId)
    requires ValidConfig(c) && c.workers == 1
    requires ValidRun(c, Init(c), before) && ValidRun(c, Exec(c, Init(c), before), run)
    requires AllIdle(Exec(c, Init(c), before)) && AllIdle(Exec(c, Exec(c, Init(c), before), run))
    requires DrainRun(c, Exec(c, Init(c), before), run) && HealthyRun(run)
    requires Rounds(run) >= AttemptsLeft(c, Exec(c, Init(c), before)) / c.batchSize + c.threshold
    requires j in Exec(c, Init(c), before).rows && Live(c, Exec(c, Init(c), before).rows[j])
    ensures var s := Exec(c, Init(c), before);
            var end := Exec(c, s, run);
            j in end.rows && end.rows[j].publishedAt.Some? && MessageOf(s.rows[j]) in end.broker
  {
    var s := Exec(c, Init(c), before);
    var end := Exec(c, s, run);
    ReachableInv(c, before);
    DrainTerminates(c, before, run);
    HealthyKeepsCounts(c, s, run, j);
    RunInv(c, s, run);
    NothingLost(c, before, run);
    assert RowOk(end, j, end.rows[j]);
  }

  lemma NobodyHolds(s: State, j: EventId)
    requires AllIdle(s)
    ensures Holders(s.workers, j) == 0
  {
    HoldersBounds(s.workers, j);
  }

  lemma IdlePotential(c: Config, s: State)
    requires AllIdle(s)
    ensures Potential(c, s, s.rows.Keys) == AttemptsLeft(c, s)
  {
    var f := (j: EventId) => Credit(c, s, j);
    var g := (j: EventId) => if j in s.rows && Live(c, s.rows[j]) then c.threshold - s.rows[j].failureCount else 0;
    forall j | j in s.rows.Keys
      ensures f(j) == g(j)
    {
      NobodyHolds(s, j);
    }
    SumSame(s.rows.Keys, f, g);
  }
}
