/**
 * Concrete runs that show which bounds are exact and which promises need
 * their hypothesis: one event, claimed and failed by any number of workers.
 */
module OutboxScenarios {
  import opened Wrappers
  import opened OutboxModel
  import opened OutboxInvariant
  import opened OutboxLease
  import opened OutboxFailures
  import opened OutboxQuiescence

  const EVENT := EventFor(NameSet(1, 0, "p", "n"))

  lemma {:induction false} RecordingSnoc(c: Config, s: State, run: seq<Action>, a: Action)
    requires ValidRun(c, s, run) && RecordingRun(c, s, run)
    requires Enabled(c, Exec(c, s, run), a) && RecordsWhatItLogs(Exec(c, s, run), a)
    ensures ValidRun(c, s, run + [a]) && RecordingRun(c, s, run + [a])
    decreases |run|
  {
    Snoc(c, s, run, a);
    if run == [] {
      assert run + [a] == [a] && [a][1..] == [];
    } else {
      RecordingSnoc(c, Step(c, s, run[0]), run[1..], a);
      assert (run + [a])[1..] == run[1..] + [a];
    }
  }

  /** A recording run from the empty database, and where it leads. */
  ghost predicate Leads(c: Config, run: seq<Action>, s: State) {
    ValidRun(c, Init(c), run) && RecordingRun(c, Init(c), run) && Exec(c, Init(c), run) == s
  }

  lemma Go(c: Config, run: seq<Action>, s: State, a: Action) returns (run': seq<Action>, s': State)
    requires Leads(c, run, s) && Enabled(c, s, a) && RecordsWhatItLogs(s, a)
    ensures Leads(c, run', s') && s' == Step(c, s, a)
  {
    Snoc(c, Init(c), run, a);
    RecordingSnoc(c, Init(c), run, a);
    run', s' := run + [a], Step(c, s, a);
  }

  predicate HoldsCopy(x: Worker, copy: nat) {
    x.Working? && x.phase.ToPublish? && x.batch == [Claimed(1, EVENT.eventType, EVENT.payload, copy)]
  }

  /**
   * The single row has failed fc times and its lease has run out; workers
   * lo..hi hold it with a failure count of `copy`, the others are idle.
   */
  ghost predicate Scene(c: Config, s: State, fc: nat, lo: nat, hi: nat, copy: nat, stuck: nat) {
    && s.rows.Keys == {1}
    && (var row := s.rows[1];
        && row.eventType == EVENT.eventType && row.payload == EVENT.payload
        && row.publishedAt.None? && row.failureCount == fc
        && (row.lastAttemptedAt.None? || row.lastAttemptedAt.value + Lease(c) < s.clock))
    && |s.workers| == c.workers
    && (forall w | 0 <= w < |s.workers| ::
          if lo <= w < hi then HoldsCopy(s.workers[w], copy) else s.workers[w].Idle?)
    && StuckCount(s.logs, 1) == stuck
  }

  lemma EnqueueOne(c: Config) returns (run: seq<Action>, s: State)
    requires ValidConfig(c)
    ensures Leads(c, run, s) && Scene(c, s, 0, 0, 0, 0, 0) && s.claims == []
  {
    run, s := [], Init(c);
    run, s := Go(c, run, s, OfCall(0, StartUpdateName("p", "n", 1, 0)));
    run, s := Go(c, run, s, OfCall(0, BeginTx));
    run, s := Go(c, run, s, OfCall(0, WriteEvent));
    AddRowsSpec(s.rows, s.calls[0].events, 0);
    run, s := Go(c, run, s, OfCall(0, Commit));
    assert s.rows[1] == NewRow(EVENT, 0);
  }

  lemma OnlyRowAvailable(c: Config, s: State, fc: nat, lo: nat, hi: nat, copy: nat, stuck: nat)
    requires ValidConfig(c) && Scene(c, s, fc, lo, hi, copy, stuck) && fc < c.threshold
    ensures OldestFirst(c, s.rows, Available(c, s), {1})
  {
    assert !Locked(s, 1);
    assert Available(c, s) == {1};
  }

  /** The next idle worker locks the only row. */
  lemma LockNext(c: Config, run: seq<Action>, s: State, fc: nat, lo: nat, hi: nat, stuck: nat)
    returns (run': seq<Action>, s': State)
    requires ValidConfig(c) && Leads(c, run, s) && Scene(c, s, fc, lo, hi, fc, stuck)
    requires fc < c.threshold && lo <= hi < c.workers
    ensures Leads(c, run', s') && s' == s.(workers := s.workers[hi := Claiming(s.clock, {1})])
  {
    OnlyRowAvailable(c, s, fc, lo, hi, fc, stuck);
    run', s' := Go(c, run, s, OfWorker(hi, ClaimLock({1})));
  }

  /** The batch that the claim of the only row returns. */
  lemma ClaimOne(c: Config, s: State, fc: nat, lo: nat, hi: nat, stuck: nat)
    requires Scene(c, s, fc, lo, hi, fc, stuck) && lo <= hi < c.workers
    ensures var s1 := s.(workers := s.workers[hi := Claiming(s.clock, {1})]);
            && WorkerEnabled(c, s1, hi, ClaimCommit([1]))
            && var s2 := WorkerStep(c, s1, hi, ClaimCommit([1]));
               && s2.workers == s.workers[hi := Working(s.clock, [Claimed(1, EVENT.eventType, EVENT.payload, fc)], ToPublish)]
               && s2.rows.Keys == {1} && s2.rows[1] == s.rows[1].(lastAttemptedAt := Some(s.clock))
               && s2.claims == s.claims + [ClaimRecord(1, s.clock)]
               && s2.logs == s.logs && s2.clock == s.clock
  {
    assert Listing([1], {1});
    assert Records([1], s.clock) == [ClaimRecord(1, s.clock)];
    assert ReadClaimed(Stamp(s.rows, {1}, s.clock), [1]) == [Claimed(1, EVENT.eventType, EVENT.payload, fc)];
  }

  /** The next worker claims the row although the others still hold it. */
  lemma HoldNext(c: Config, run: seq<Action>, s: State, fc: nat, lo: nat, hi: nat, stuck: nat)
    returns (run': seq<Action>, s': State)
    requires ValidConfig(c) && Leads(c, run, s) && Scene(c, s, fc, lo, hi, fc, stuck)
    requires fc < c.threshold && lo <= hi < c.workers
    ensures Leads(c, run', s') && Scene(c, s', fc, lo, hi + 1, fc, stuck)
    ensures s'.claims == s.claims + [ClaimRecord(1, s.clock)] && s'.clock == s.clock + Lease(c) + 1
  {
    run', s' := LockNext(c, run, s, fc, lo, hi, stuck);
    ClaimOne(c, s, fc, lo, hi, stuck);
    run', s' := Go(c, run', s', OfWorker(hi, ClaimCommit([1])));
    run', s' := Go(c, run', s', Tick(Lease(c) + 1));
  }

  /** The first holder fails to publish, logs what its own copy says, and records the failure. */
  lemma FailNext(c: Config, run: seq<Action>, s: State, fc: nat, lo: nat, hi: nat, copy: nat, stuck: nat)
    returns (run': seq<Action>, s': State)
    requires ValidConfig(c) && Leads(c, run, s) && Scene(c, s, fc, lo, hi, copy, stuck) && lo < hi <= c.workers
    ensures Leads(c, run', s')
    ensures Scene(c, s', fc + 1, lo + 1, hi, copy, stuck + (if copy + 1 >= c.threshold then 1 else 0))
    ensures s'.claims == s.claims
  {
    assert HoldsCopy(s.workers[lo], copy);
    run', s' := Go(c, run, s, OfWorker(lo, PublishRejected("down")));
    var entry := if copy + 1 >= c.threshold then Stuck(1, copy + 1) else Warned(1, copy + 1);
    StuckAppend(s.logs, entry, 1);
    run', s' := Go(c, run', s', OfWorker(lo, LogOutcome));
    assert !Locked(s', 1);
    run', s' := Go(c, run', s', OfWorker(lo, RecordOk));
    run', s' := Go(c, run', s', Tick(Lease(c) + 1));
  }

  /** One worker alone takes the count to any value up to the threshold. */
  lemma {:induction false} Climb(c: Config, n: nat) returns (run: seq<Action>, s: State)
    requires ValidConfig(c) && c.workers > 0 && n < c.threshold
    ensures Leads(c, run, s) && Scene(c, s, n, 0, 0, n, 0)
  {
    if n == 0 {
      run, s := EnqueueOne(c);
    } else {
      run, s := Climb(c, n - 1);
      run, s := HoldNext(c, run, s, n - 1, 0, 0, 0);
      run, s := FailNext(c, run, s, n - 1, 0, 1, n - 1, 0);
    }
  }

  lemma {:induction false} HoldMany(c: Config, fc: nat, k: nat) returns (run: seq<Action>, s: State)
    requires ValidConfig(c) && c.workers > 0 && fc < c.threshold && k <= c.workers
    ensures Leads(c, run, s) && Scene(c, s, fc, 0, k, fc, 0)
  {
    if k == 0 {
      run, s := Climb(c, fc);
    } else {
      run, s := HoldMany(c, fc, k - 1);
      run, s := HoldNext(c, run, s, fc, 0, k - 1, 0);
    }
  }

  /** k workers hold the row with the same stale count, and m of them have failed since. */
  lemma {:induction false} FailMany(c: Config, fc: nat, k: nat, m: nat) returns (run: seq<Action>, s: State)
    requires ValidConfig(c) && c.workers > 0 && fc < c.threshold && m <= k <= c.workers
    ensures Leads(c, run, s) && Scene(c, s, fc + m, m, k, fc, if fc + 1 >= c.threshold then m else 0)
    decreases m
  {
    if m == 0 {
      run, s := HoldMany(c, fc, k);
    } else {
      run, s := FailMany(c, fc, k, m - 1);
      run, s := FailNext(c, run, s, fc + m - 1, m - 1, k, fc, if fc + 1 >= c.threshold then m - 1 else 0);
    }
  }

  /** The failure bound is exact: with W workers some run ends with failure_count T-1+W. */
  lemma FailureBoundReached(c: Config) returns (run: seq<Action>)
    requires ValidConfig(c) && c.workers > 0
    ensures ValidRun(c, Init(c), run) && 1 in Exec(c, Init(c), run).rows
    ensures Exec(c, Init(c), run).rows[1].failureCount == c.threshold - 1 + c.workers
  {
    var s;
    run, s := FailMany(c, c.threshold - 1, c.workers, c.workers);
  }

  ghost predicate NeverOvershoots(c: Config) {
    forall run, id | ValidRun(c, Init(c), run) && id in Exec(c, Init(c), run).rows ::
      Exec(c, Init(c), run).rows[id].failureCount <= c.threshold
  }

  /** failure_count stays within the threshold on every run if and only if at most one relay runs. */
  lemma NeverOvershootsIff(c: Config)
    requires ValidConfig(c)
    ensures NeverOvershoots(c) <==> c.workers <= 1
  {
    if c.workers <= 1 {
      forall run, id | ValidRun(c, Init(c), run) && id in Exec(c, Init(c), run).rows
        ensures Exec(c, Init(c), run).rows[id].failureCount <= c.threshold
      {
        InitInv(c);
        OneRelayIsExclusive(c, Init(c), run);
        ExclusiveFailureBound(c, run, id);
      }
    } else {
      var run := FailureBoundReached(c);
      assert Exec(c, Init(c), run).rows[1].failureCount > c.threshold;
    }
  }

  // ------------------------------------- published rows may carry an error

  /** The row has been published while worker 1 still holds it. */
  ghost predicate LateHolder(s: State) {
    && 1 in s.rows && s.rows[1].publishedAt.Some?
    && |s.workers| >= 2 && HoldsCopy(s.workers[1], 0)
    && forall w | 0 <= w < |s.workers| :: !s.workers[w].Claiming?
  }

  /** Two workers hold the row; the first delivers and marks it. */
  lemma DeliverFirst(c: Config) returns (run: seq<Action>, s: State)
    requires ValidConfig(c) && c.workers >= 2
    ensures Leads(c, run, s) && LateHolder(s)
  {
    run, s := HoldMany(c, 0, 2);
    assert HoldsCopy(s.workers[0], 0) && HoldsCopy(s.workers[1], 0);
    run, s := Go(c, run, s, OfWorker(0, PublishOk));
    assert !Locked(s, 1);
    run, s := Go(c, run, s, OfWorker(0, MarkOk));
  }

  /** Then the other records its own failure. */
  lemma PublishedWithError(c: Config) returns (run: seq<Action>, s: State)
    requires ValidConfig(c) && c.workers >= 2
    ensures Leads(c, run, s) && 1 in s.rows && s.rows[1].publishedAt.Some? && s.rows[1].lastError == Some("down")
  {
    run, s := DeliverFirst(c);
    run, s := Go(c, run, s, OfWorker(1, PublishRejected("down")));
    run, s := Go(c, run, s, OfWorker(1, LogOutcome));
    assert !Locked(s, 1);
    run, s := Go(c, run, s, OfWorker(1, RecordOk));
  }

  ghost predicate ErrorFreeWhenPublished(c: Config) {
    forall run, id | ValidRun(c, Init(c), run) && id in Exec(c, Init(c), run).rows
                     && Exec(c, Init(c), run).rows[id].publishedAt.Some? ::
      Exec(c, Init(c), run).rows[id].lastError.None?
  }

  /** A published row is free of errors on every run if and only if at most one relay runs. */
  lemma PublishedHasNoErrorIff(c: Config)
    requires ValidConfig(c)
    ensures ErrorFreeWhenPublished(c) <==> c.workers <= 1
  {
    if c.workers <= 1 {
      forall run, id | ValidRun(c, Init(c), run) && id in Exec(c, Init(c), run).rows
                       && Exec(c, Init(c), run).rows[id].publishedAt.Some?
        ensures Exec(c, Init(c), run).rows[id].lastError.None?
      {
        InitInv(c);
        OneRelayIsExclusive(c, Init(c), run);
        PublishedHasNoError(c, run, id);
      }
    } else {
      var run, s := PublishedWithError(c);
      assert ValidRun(c, Init(c), run) && s == Exec(c, Init(c), run);
      assert !Exec(c, Init(c), run).rows[1].lastError.None?;
    }
  }

  // ------------------------- stuck log needs exclusivity and recorded failures

  /** No stuck failure was logged and then not recorded. */
  ghost predicate NoLostRecord(c: Config, run: seq<Action>)
    requires ValidRun(c, Init(c), run)
  {
    forall id :: LostRecords(c, Init(c), run, id) == 0
  }

  /** Stuck logs are exact on every run, or on every run that loses no record. */
  ghost predicate StuckLogsExact(c: Config, recorded: bool) {
    forall run, id | ValidRun(c, Init(c), run) && (recorded ==> NoLostRecord(c, run))
                     && id in Exec(c, Init(c), run).rows && !MidRecord(c, Exec(c, Init(c), run), id) ::
      StuckCount(Exec(c, Init(c), run).logs, id) ==
      (if Exec(c, Init(c), run).rows[id].failureCount >= c.threshold then 1 else 0)
  }

  /**
   * Two slow workers break it although every failure is recorded: with T > 1
   * they bring the row to the threshold with warnings only, with T = 1 they
   * report it twice.
   */
  lemma TwoWorkersMislog(c: Config) returns (run: seq<Action>, s: State)
    requires ValidConfig(c) && c.workers >= 2
    ensures Leads(c, run, s) && NoLostRecord(c, run)
    ensures 1 in s.rows && s.rows[1].failureCount >= c.threshold && !MidRecord(c, s, 1)
    ensures StuckCount(s.logs, 1) == if c.threshold == 1 then 2 else 0
  {
    var fc := if c.threshold == 1 then 0 else c.threshold - 2;
    run, s := FailMany(c, fc, 2, 2);
    forall id
      ensures LostRecords(c, Init(c), run, id) == 0
    {
      RecordingLosesNothing(c, Init(c), run, id);
    }
    forall w | 0 <= w < |s.workers|
      ensures !RecordsNext(c, s, s.workers[w], 1)
    {
      assert s.workers[w].Idle?;
    }
  }

  /** The holder of a row one failure short of the threshold reports it stuck and is about to record that. */
  lemma ReportStuck(c: Config) returns (run: seq<Action>, s: State)
    requires ValidConfig(c) && c.workers >= 1
    ensures Leads(c, run, s)
    ensures |s.workers| == c.workers && s.workers[0].Working? && |s.workers[0].batch| == 1 && s.workers[0].phase.ToRecord?
    ensures forall w | 1 <= w < |s.workers| :: s.workers[w].Idle?
    ensures 1 in s.rows && s.rows[1].failureCount == c.threshold - 1 && StuckCount(s.logs, 1) == 1
  {
    run, s := HoldMany(c, c.threshold - 1, 1);
    var held := s;
    assert HoldsCopy(held.workers[0], c.threshold - 1);
    run, s := Go(c, run, s, OfWorker(0, PublishRejected("down")));
    assert s == held.(workers := held.workers[0 := held.workers[0].(phase := ToLog("down"))]);
    StuckAppend(held.logs, Stuck(1, c.threshold), 1);
    run, s := Go(c, run, s, OfWorker(0, LogOutcome));
    assert s.logs == held.logs + [Stuck(1, c.threshold)] && s.rows == held.rows;
  }

  /** One relay breaks it too, when the record that follows the log fails: stuck is logged short of the threshold. */
  lemma LostRecordMislogs(c: Config) returns (run: seq<Action>)
    requires ValidConfig(c) && c.workers >= 1
    ensures ValidRun(c, Init(c), run)
    ensures var s := Exec(c, Init(c), run);
            && 1 in s.rows && s.rows[1].failureCount == c.threshold - 1 && !MidRecord(c, s, 1)
            && StuckCount(s.logs, 1) == 1
  {
    var before, s := ReportStuck(c);
    var a := OfWorker(0, RecordFailed);
    Snoc(c, Init(c), before, a);
    run := before + [a];
    var s' := Step(c, s, a);
    StuckAppend(s.logs, RecordFailedLog(s.workers[0].batch[0].eventId), 1);
    forall w | 0 <= w < |s'.workers|
      ensures !RecordsNext(c, s', s'.workers[w], 1)
    {
      assert s'.workers[w].Idle?;
    }
  }

  /** Without workers nothing is logged and nothing is lost. */
  lemma {:induction false} NobodyLosesRecords(c: Config, s: State, run: seq<Action>, id: EventId)
    requires c.workers == 0 && ValidRun(c, s, run) && Inv(c, s)
    ensures LostRecords(c, s, run, id) == 0
    decreases |run|
  {
    if run != [] {
      StepInv(c, s, run[0]);
      NobodyLosesRecords(c, Step(c, s, run[0]), run[1..], id);
    }
  }

  lemma ExactWithOneRelay(c: Config, recorded: bool)
    requires ValidConfig(c) && (c.workers == 0 || (c.workers == 1 && recorded))
    ensures StuckLogsExact(c, recorded)
  {
    forall run, id | ValidRun(c, Init(c), run) && (recorded ==> NoLostRecord(c, run))
                     && id in Exec(c, Init(c), run).rows && !MidRecord(c, Exec(c, Init(c), run), id)
      ensures StuckCount(Exec(c, Init(c), run).logs, id) ==
              (if Exec(c, Init(c), run).rows[id].failureCount >= c.threshold then 1 else 0)
    {
      InitInv(c);
      OneRelayIsExclusive(c, Init(c), run);
      StuckLogCount(c, run, id);
      if c.workers == 0 {
        NobodyLosesRecords(c, Init(c), run, id);
      }
    }
  }

  /**
   * The stuck log is exact on every run if and only if no relay runs, and on
   * every run that loses no record if and only if at most one does: both
   * halves, a single relay and recorded failures, are needed.
   */
  lemma StuckLogsExactIff(c: Config, recorded: bool)
    requires ValidConfig(c)
    ensures StuckLogsExact(c, recorded) <==> c.workers == 0 || (c.workers == 1 && recorded)
  {
    if c.workers == 0 || (c.workers == 1 && recorded) {
      ExactWithOneRelay(c, recorded);
    } else if c.workers >= 2 {
      var run, s := TwoWorkersMislog(c);
      assert ValidRun(c, Init(c), run) && s == Exec(c, Init(c), run);
    } else {
      var run := LostRecordMislogs(c);
      assert 1 in Exec(c, Init(c), run).rows;
    }
  }

  // ------------------------------------------------ the lease is truncated

  /** Two claims of one row are more than the configured visibility timeout apart, in nanoseconds. */
  ghost predicate TimeoutHonoured(c: Config) {
    forall run, i, j | ValidRun(c, Init(c), run) && 0 <= i < j < |Exec(c, Init(c), run).claims|
                       && Exec(c, Init(c), run).claims[i].eventId == Exec(c, Init(c), run).claims[j].eventId ::
      (Exec(c, Init(c), run).claims[j].at - Exec(c, Init(c), run).claims[i].at) * 1000 > c.visibilityNanos
  }

  lemma ClaimTwice(c: Config) returns (run: seq<Action>, s: State)
    requires ValidConfig(c) && c.workers > 0
    ensures Leads(c, run, s) && |s.claims| == 2
    ensures s.claims[0].eventId == s.claims[1].eventId && s.claims[1].at == s.claims[0].at + Lease(c) + 1
  {
    run, s := EnqueueOne(c);
    run, s := HoldNext(c, run, s, 0, 0, 0, 0);
    assert HoldsCopy(s.workers[0], 0);
    run, s := Go(c, run, s, OfWorker(0, Crash));
    run, s := HoldNext(c, run, s, 0, 0, 0, 0);
  }

  /**
   * The timeout is honoured on every run if and only if less than a clock
   * tick of it is lost when it is cut to whole milliseconds.
   */
  lemma TimeoutHonouredIff(c: Config)
    requires ValidConfig(c) && c.workers > 0
    ensures TimeoutHonoured(c) <==> c.visibilityNanos % 1_000_000 < 1000
  {
    assert Lease(c) * 1000 + c.visibilityNanos % 1_000_000 == c.visibilityNanos;
    if c.visibilityNanos % 1_000_000 < 1000 {
      forall run, i, j | ValidRun(c, Init(c), run) && 0 <= i < j < |Exec(c, Init(c), run).claims|
                         && Exec(c, Init(c), run).claims[i].eventId == Exec(c, Init(c), run).claims[j].eventId
        ensures (Exec(c, Init(c), run).claims[j].at - Exec(c, Init(c), run).claims[i].at) * 1000 > c.visibilityNanos
      {
        LeaseSeparation(c, run);
      }
    } else {
      var run, s := ClaimTwice(c);
      assert ValidRun(c, Init(c), run);
      assert (s.claims[1].at - s.claims[0].at) * 1000 <= c.visibilityNanos;
    }
  }
}
