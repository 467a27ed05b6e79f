/**
 * What the processes of the service share: the database, the broker, what
 * account has learned, and the log. The state machine is advanced alongside,
 * so whatever is done to the real fields is a run of it.
 */
module SharedWorld {
  import opened OutboxModel
  import opened OutboxProgress

  function LockSet(x: Worker): set<EventId> {
    if x.Claiming? then x.ids else {}
  }

  /** The rows that claim statements in flight have locked. */
  ghost function LockedIds(workers: seq<Worker>): set<EventId> {
    if workers == [] then {} else LockSet(workers[0]) + LockedIds(workers[1..])
  }

  lemma {:induction false} LockedIdsMeans(workers: seq<Worker>, id: EventId)
    ensures id in LockedIds(workers) <==> exists v :: 0 <= v < |workers| && id in LockSet(workers[v])
    decreases |workers|
  {
    if workers != [] {
      LockedIdsMeans(workers[1..], id);
      if v :| 0 <= v < |workers[1..]| && id in LockSet(workers[1..][v]) {
        assert id in LockSet(workers[v + 1]);
      }
      if v :| 0 <= v < |workers| && id in LockSet(workers[v]) {
        assert v > 0 ==> workers[1..][v - 1] == workers[v];
      }
    }
  }

  lemma LockedMeans(s: State, id: EventId)
    ensures Locked(s, id) <==> id in LockedIds(s.workers)
  {
    LockedIdsMeans(s.workers, id);
    if v :| 0 <= v < |s.workers| && s.workers[v].Claiming? && id in s.workers[v].ids {
      assert id in LockSet(s.workers[v]);
    }
  }

  /** One worker's locks, and everybody else's. */
  lemma {:induction false} LocksSplit(workers: seq<Worker>, w: nat, x: Worker)
    requires w < |workers|
    ensures LockedIds(workers[w := x]) == LockedIds(workers[w := Idle]) + LockSet(x)
    decreases |workers|
  {
    if w == 0 {
      assert workers[w := x][1..] == workers[1..] == workers[w := Idle][1..];
    } else {
      LocksSplit(workers[1..], w - 1, x);
      assert workers[w := x][1..] == workers[1..][w - 1 := x];
      assert workers[w := Idle][1..] == workers[1..][w - 1 := Idle];
    }
  }

  // ----------------------------------------------------- what a run is like

  /** The actions of a run that a drain must not contain. */
  ghost function Flaws(c: Config, s: State, run: seq<Action>): nat
    requires ValidRun(c, s, run)
    decreases |run|
  {
    if run == [] then 0 else (if DrainStep(c, s, run[0]) then 0 else 1) + Flaws(c, Step(c, s, run[0]), run[1..])
  }

  predicate Refused(a: Action) {
    a.OfWorker? && (a.wop.PublishRejected? || a.wop.PublishUnknown?)
  }

  function Refusals(run: seq<Action>): nat {
    if run == [] then 0 else (if Refused(run[0]) then 1 else 0) + Refusals(run[1..])
  }

  lemma {:induction false} FlawsConcat(c: Config, s: State, a: seq<Action>, b: seq<Action>)
    requires ValidRun(c, s, a) && ValidRun(c, Exec(c, s, a), b)
    ensures ValidRun(c, s, a + b) && Exec(c, s, a + b) == Exec(c, Exec(c, s, a), b)
    ensures Flaws(c, s, a + b) == Flaws(c, s, a) + Flaws(c, Exec(c, s, a), b)
    decreases |a|
  {
    RunConcat(c, s, a, b);
    if a == [] {
      assert a + b == b;
    } else {
      FlawsConcat(c, Step(c, s, a[0]), a[1..], b);
      assert (a + b)[1..] == a[1..] + b && (a + b)[0] == a[0];
    }
  }

  lemma {:induction false} CountsConcat(a: seq<Action>, b: seq<Action>)
    ensures Rounds(a + b) == Rounds(a) + Rounds(b) && Refusals(a + b) == Refusals(a) + Refusals(b)
  {
    if a == [] {
      assert a + b == b;
    } else {
      CountsConcat(a[1..], b);
      assert (a + b)[1..] == a[1..] + b;
    }
  }

  lemma CountsOne(c: Config, s: State, a: Action)
    requires Enabled(c, s, a)
    ensures ValidRun(c, s, [a]) && Exec(c, s, [a]) == Step(c, s, a)
    ensures Flaws(c, s, [a]) == if DrainStep(c, s, a) then 0 else 1
    ensures Rounds([a]) == (if IsRound(a) then 1 else 0) && Refusals([a]) == (if Refused(a) then 1 else 0)
  {
    var rest := [a][1..];
    assert rest == [];
    assert Rounds(rest) == 0 && Refusals(rest) == 0 && Flaws(c, Step(c, s, a), rest) == 0;
  }

  lemma {:induction false} NoFlawIsDrain(c: Config, s: State, run: seq<Action>)
    requires ValidRun(c, s, run) && Flaws(c, s, run) == 0
    ensures DrainRun(c, s, run)
    decreases |run|
  {
    if run != [] {
      NoFlawIsDrain(c, Step(c, s, run[0]), run[1..]);
    }
  }

  lemma {:induction false} NoRefusalIsHealthy(run: seq<Action>)
    requires Refusals(run) == 0
    ensures HealthyRun(run)
  {
    if run != [] {
      NoRefusalIsHealthy(run[1..]);
      assert forall i | 1 <= i < |run| :: run[i] == run[1..][i - 1];
    }
  }

  /** What was appended to a valid run is a valid run from where the first part ended. */
  lemma {:induction false} SuffixIsRun(c: Config, s: State, a: seq<Action>, b: seq<Action>)
    requires ValidRun(c, s, a + b)
    ensures ValidRun(c, s, a) && ValidRun(c, Exec(c, s, a), b)
    decreases |a|
  {
    if a == [] {
      assert a + b == b;
    } else {
      assert (a + b)[1..] == a[1..] + b;
      SuffixIsRun(c, Step(c, s, a[0]), a[1..], b);
    }
  }

  lemma {:induction false} NobodyLocks(workers: seq<Worker>)
    requires forall v | 0 <= v < |workers| :: workers[v].Idle?
    ensures LockedIds(workers) == {}
    decreases |workers|
  {
    if workers != [] {
      NobodyLocks(workers[1..]);
    }
  }

  /** The run so far, where it led, and what it was like. */
  datatype Trace = Trace(run: seq<Action>, s: State, rounds: nat, flaws: nat, refusals: nat)

  ghost predicate Traces(c: Config, t: Trace) {
    && ValidConfig(c) && ValidRun(c, Init(c), t.run) && Exec(c, Init(c), t.run) == t.s
    && t.rounds == Rounds(t.run) && t.flaws == Flaws(c, Init(c), t.run) && t.refusals == Refusals(t.run)
  }

  /** One more action. */
  ghost function Extend(c: Config, t: Trace, a: Action): Trace
    requires Enabled(c, t.s, a)
  {
    Trace(t.run + [a], Step(c, t.s, a),
          t.rounds + (if IsRound(a) then 1 else 0),
          t.flaws + (if DrainStep(c, t.s, a) then 0 else 1),
          t.refusals + (if Refused(a) then 1 else 0))
  }

  lemma ExtendTraces(c: Config, t: Trace, a: Action)
    requires Traces(c, t) && Enabled(c, t.s, a)
    ensures Traces(c, Extend(c, t, a))
  {
    CountsOne(c, t.s, a);
    FlawsConcat(c, Init(c), t.run, [a]);
    CountsConcat(t.run, [a]);
  }

  /**
   * Worker w alone has moved, to x, beginning n rounds: no other worker and no
   * transaction changed. `clean` says that a drain allows all of it, and
   * `refused` publishes were not confirmed.
   */
  ghost predicate Moved(t: Trace, t': Trace, w: nat, x: Worker, n: nat, clean: bool, refused: nat) {
    && t.run <= t'.run
    && w < |t.s.workers| && t'.s.workers == t.s.workers[w := x] && t'.s.calls == t.s.calls
    && t'.rounds == t.rounds + n
    && t'.refusals == t.refusals + refused
    && (clean ==> t'.flaws == t.flaws)
  }

  lemma MovedTwice(t: Trace, t1: Trace, t2: Trace, w: nat, x: Worker, n1: nat, clean1: bool, refused1: nat,
                   y: Worker, n2: nat, clean2: bool, refused2: nat)
    requires Moved(t, t1, w, x, n1, clean1, refused1) && Moved(t1, t2, w, y, n2, clean2, refused2)
    ensures Moved(t, t2, w, y, n1 + n2, clean1 && clean2, refused1 + refused2)
  {
  }

  /** What a round of the relay changes. */
  datatype View = View(rows: Table, logs: seq<LogRecord>, accepted: seq<Message>, clock: Time)

  class World {
    ghost const c: Config
    ghost var trace: Trace

    var rows: Table
    var onboarded: set<PlayerId>
    var locked: set<EventId>
    var clock: Time
    var accepted: seq<Message>
    var selected: map<PlayerId, string>
    var logs: seq<LogRecord>

    function Seen(): View
      reads this
    {
      View(rows, logs, accepted, clock)
    }

    /** Everything but the log, which the relay writes after the store has answered. */
    ghost predicate Stored()
      reads this
    {
      && Traces(c, trace)
      && rows == trace.s.rows && onboarded == trace.s.onboarded && locked == LockedIds(trace.s.workers)
      && clock == trace.s.clock && accepted == trace.s.broker && selected == trace.s.account
    }

    ghost predicate Valid()
      reads this
    {
      Stored() && logs == trace.s.logs
    }

    constructor (c: Config)
      requires ValidConfig(c)
      ensures Valid() && this.c == c && trace.run == [] && trace.s == Init(c)
    {
      this.c := c;
      trace := Trace([], Init(c), 0, 0, 0);
      rows := map[];
      onboarded := {};
      locked := {};
      clock := 0;
      accepted := [];
      selected := map[];
      logs := [];
      NobodyLocks(Init(c).workers);
    }

    ghost method Do(a: Action)
      requires Traces(c, trace) && Enabled(c, trace.s, a)
      modifies this`trace
      ensures Traces(c, trace) && trace == Extend(c, old(trace), a)
    {
      ExtendTraces(c, trace, a);
      trace := Extend(c, trace, a);
    }

    /** Time passes before something takes effect. */
    method Elapse(d: Time)
      requires Valid()
      modifies this`clock, this`trace
      ensures Valid() && clock == old(clock) + d
      ensures trace == Extend(c, old(trace), Tick(d))
    {
      clock := clock + d;
      Do(Tick(d));
    }
  }
}
