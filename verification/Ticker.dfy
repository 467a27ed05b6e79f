/** The ticker: one round after the other, surviving the ones that fail, until everything is delivered. */
module OutboxTicking {
  import opened Wrappers
  import opened OutboxModel
  import opened OutboxInvariant
  import opened OutboxProgress
  import opened SharedWorld
  import opened RelayService

  /** One tick: how long it is in coming, and how the requests of its round end. */
  datatype TickScript = TickScript(delay: Time, claiming: Fault, endings: nat -> Ending)

  function FailedTicks(script: nat -> TickScript, n: nat): nat {
    if n == 0 then 0 else FailedTicks(script, n - 1) + (if script(n - 1).claiming.NoFault? then 0 else 1)
  }

  /** Ticks come after the leases of the round before, and the store takes every write. */
  ghost predicate Steady(c: Config, tick: TickScript) {
    && tick.delay > Lease(c) && tick.claiming.NoFault?
    && forall k: nat :: !tick.endings(k).writing.NotApplied?
  }

  ghost predicate Healthy(tick: TickScript) {
    forall k: nat :: tick.endings(k).publishing.NoFault?
  }

  ghost predicate AllSteady(c: Config, script: nat -> TickScript, n: nat) {
    forall i: nat | i < n :: Steady(c, script(i))
  }

  ghost predicate AllHealthy(script: nat -> TickScript, n: nat) {
    forall i: nat | i < n :: Healthy(script(i))
  }

  /** No stamp lies in the future, so waiting longer than the lease ends every lease. */
  lemma LeasesEnd(c: Config, s: State, d: Time)
    requires RowsOk(s) && d > Lease(c)
    ensures LeasesOver(c, s.(clock := s.clock + d))
  {
    forall id | id in s.rows && Live(c, s.rows[id])
      ensures Eligible(c, s.rows[id], s.clock + d)
    {
      assert RowOk(s, id, s.rows[id]);
    }
  }

  lemma {:induction false} HealthyRefusesNothing(endings: nat -> Ending, n: nat)
    requires forall k: nat :: endings(k).publishing.NoFault?
    ensures RefusedIn(endings, n) == 0
  {
    if n > 0 {
      HealthyRefusesNothing(endings, n - 1);
    }
  }

  /** Every row is published or at the threshold. */
  ghost predicate Drained(c: Config, rows: Table) {
    forall id | id in rows :: rows[id].publishedAt.Some? || rows[id].failureCount >= c.threshold
  }

  /** Every event that was deliverable is published and was accepted. */
  ghost predicate Delivered(c: Config, before: Table, rows: Table, accepted: seq<Message>) {
    forall id | id in before && Live(c, before[id]) ::
      id in rows && rows[id].publishedAt.Some? && MessageOf(before[id]) in accepted
  }

  /** Enough flawless rounds of one relay drain the table, and deliver everything if nothing was refused. */
  lemma RoundsDrain(c: Config, t: Trace, t': Trace, ticks: nat, refused: nat)
    requires Traces(c, t) && Traces(c, t') && c.workers == 1
    requires Moved(t, t', 0, Idle, ticks, true, refused)
    requires |t.s.workers| == 1 && t.s.workers[0].Idle?
    requires ticks >= AttemptsLeft(c, t.s) / c.batchSize + c.threshold
    ensures Drained(c, t'.s.rows) && t'.s.rows.Keys == t.s.rows.Keys
    ensures refused == 0 ==> Delivered(c, t.s.rows, t'.s.rows, t'.s.broker)
  {
    var run := t'.run[|t.run|..];
    assert t'.run == t.run + run;
    SuffixIsRun(c, Init(c), t.run, run);
    FlawsConcat(c, Init(c), t.run, run);
    CountsConcat(t.run, run);
    NoFlawIsDrain(c, t.s, run);
    DrainTerminates(c, t.run, run);
    ReachableInv(c, t.run);
    DrainKeys(c, t.s, run);
    if refused == 0 {
      NoRefusalIsHealthy(run);
      forall id | id in t.s.rows && Live(c, t.s.rows[id])
        ensures id in t'.s.rows && t'.s.rows[id].publishedAt.Some? && MessageOf(t.s.rows[id]) in t'.s.broker
      {
        DrainDelivers(c, t.run, run, id);
      }
    }
  }

  lemma MovedOneTick(t0: Trace, t1: Trace, t2: Trace, w: nat, c: Config, script: nat -> TickScript, n: nat,
                     refused: nat, more: nat)
    requires Moved(t0, t1, w, Idle, n, AllSteady(c, script, n), refused)
    requires Moved(t1, t2, w, Idle, 1, Steady(c, script(n)), more)
    ensures Moved(t0, t2, w, Idle, n + 1, AllSteady(c, script, n + 1), refused + more)
  {
    MovedTwice(t0, t1, t2, w, Idle, n, AllSteady(c, script, n), refused, Idle, 1, Steady(c, script(n)), more);
  }

  class OutboxTicker {
    const runner: Relay
    var tickErrors: nat

    constructor (runner: Relay)
      ensures this.runner == runner && tickErrors == 0
    {
      this.runner := runner;
      tickErrors := 0;
    }

    /** One tick of the loop: an error is logged and nothing more. */
    method Tick(tick: TickScript) returns (ghost refused: nat)
      requires runner.Valid() && runner.store.world.trace.s.workers[runner.w].Idle?
      modifies this, runner.store.world`rows, runner.store.world`locked, runner.store.world`logs,
               runner.store.world`accepted, runner.store.world`clock, runner.store.world`trace
      ensures runner.Valid() && runner.store.world.locked == old(runner.store.world.locked)
      ensures tickErrors == old(tickErrors) + (if tick.claiming.NoFault? then 0 else 1)
      ensures Moved(old(runner.store.world.trace), runner.store.world.trace, runner.w, Idle,
                    1, Steady(runner.store.world.c, tick), refused)
      ensures Healthy(tick) ==> refused == 0
    {
      ghost var t0 := runner.store.world.trace;
      runner.Elapse(tick.delay);
      ghost var t1 := runner.store.world.trace;
      var err;
      ghost var claimed;
      err, claimed := runner.RunOnce(tick.claiming, tick.endings);
      if err.Some? {
        tickErrors := tickErrors + 1;
      }
      ghost var c := runner.store.world.c;
      refused := RefusedIn(tick.endings, |claimed|);
      if Steady(c, tick) {
        ReachableInv(c, t0.run);
        LeasesEnd(c, t0.s, tick.delay);
      }
      if Healthy(tick) {
        HealthyRefusesNothing(tick.endings, |claimed|);
      }
      MovedTwice(t0, t1, runner.store.world.trace, runner.w, Idle, 0, true, 0, Idle, 1, Steady(c, tick), refused);
    }

    /** The loop: one RunOnce per tick; errors are logged and survived. */
    method RunTicks(ticks: nat, script: nat -> TickScript) returns (ghost refused: nat)
      requires runner.Valid() && runner.store.world.trace.s.workers[runner.w].Idle?
      modifies this, runner.store.world`rows, runner.store.world`locked, runner.store.world`logs,
               runner.store.world`accepted, runner.store.world`clock, runner.store.world`trace
      ensures runner.Valid() && runner.store.world.locked == old(runner.store.world.locked)
      ensures tickErrors == old(tickErrors) + FailedTicks(script, ticks)
      ensures Moved(old(runner.store.world.trace), runner.store.world.trace, runner.w, Idle,
                    ticks, AllSteady(runner.store.world.c, script, ticks), refused)
      ensures AllHealthy(script, ticks) ==> refused == 0
    {
      ghost var t0, c := runner.store.world.trace, runner.store.world.c;
      refused := 0;
      assert t0.s.workers[runner.w := Idle] == t0.s.workers;
      var n := 0;
      while n < ticks
        invariant 0 <= n <= ticks && tickErrors == old(tickErrors) + FailedTicks(script, n)
        invariant runner.Valid() && runner.store.world.locked == old(runner.store.world.locked)
        invariant Moved(t0, runner.store.world.trace, runner.w, Idle, n, AllSteady(c, script, n), refused)
        invariant AllHealthy(script, n) ==> refused == 0
      {
        ghost var t1 := runner.store.world.trace;
        ghost var more := Tick(script(n));
        MovedOneTick(t0, t1, runner.store.world.trace, runner.w, c, script, n, refused, more);
        refused := refused + more;
        n := n + 1;
      }
    }

    /**
     * Run until cancelled, which here is after `ticks` ticks. With one relay,
     * ticks that come after the leases and a store that takes every write,
     * enough ticks publish every row or bring it to the threshold; with a
     * healthy broker they publish every row that was still to be delivered.
     */
    method Run(ticks: nat, script: nat -> TickScript) returns (ghost refused: nat)
      requires runner.Valid() && runner.store.world.trace.s.workers[runner.w].Idle?
      modifies this, runner.store.world`rows, runner.store.world`locked, runner.store.world`logs,
               runner.store.world`accepted, runner.store.world`clock, runner.store.world`trace
      ensures runner.Valid() && runner.store.world.locked == old(runner.store.world.locked)
      ensures tickErrors == old(tickErrors) + FailedTicks(script, ticks)
      ensures Moved(old(runner.store.world.trace), runner.store.world.trace, runner.w, Idle,
                    ticks, AllSteady(runner.store.world.c, script, ticks), refused)
      ensures var world := runner.store.world;
              && world.c.workers == 1 && AllSteady(world.c, script, ticks)
              && ticks >= AttemptsLeft(world.c, old(world.trace).s) / world.c.batchSize + world.c.threshold ==>
              && Drained(world.c, world.rows) && world.rows.Keys == old(world.rows).Keys
              && (AllHealthy(script, ticks) ==> Delivered(world.c, old(world.rows), world.rows, world.accepted))
    {
      ghost var t0, c := runner.store.world.trace, runner.store.world.c;
      refused := RunTicks(ticks, script);
      if c.workers == 1 && AllSteady(c, script, ticks) && ticks >= AttemptsLeft(c, t0.s) / c.batchSize + c.threshold {
        ReachableInv(c, t0.run);
        RoundsDrain(c, t0, runner.store.world.trace, ticks, refused);
      }
    }
  }
}
